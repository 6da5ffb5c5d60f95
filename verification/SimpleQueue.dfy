/** The bounded queue of the single-pass read: producers wait while it is full,
    consumers while it is empty and producers remain. */
module SimpleQueue {
  import opened Prelude
  import opened BatchCore
  import opened Threads
  import opened BatchThreads

  // ------------------------------------------------------------------
  // Critical sections
  // ------------------------------------------------------------------

  datatype Bounded<T> = Bounded(capacity: nat, items: seq<Item<T>>, producers: int)

  datatype Done<T> = WaitOn(cv: CondVar) | Pushed | Popped(item: Item<T>) | Deleted | Empty(message: string)

  /** The new state, how the section ended, and the notifications it sent. */
  datatype Step<T> = Step(q: Bounded<T>, done: Done<T>, emptyOne: bool, emptyAll: bool, fullOne: bool)

  function PushStep<T>(q: Bounded<T>, value: Item<T>): Step<T> {
    if |q.items| >= q.capacity
    then Step(q, WaitOn(FullCV), false, false, false)
    else Step(q.(items := q.items + [value]), Pushed, true, false, false)
  }

  function PopStep<T>(q: Bounded<T>): Step<T> {
    if q.items == [] then
      Step(q, if q.producers != 0 then WaitOn(EmptyCV) else Empty("Queue is empty"), false, false, false)
    else
      Step(q.(items := q.items[1..]), Popped(q.items[0]), false, false, true)
  }

  function DeleteStep<T>(q: Bounded<T>): Step<T> {
    Step(q.(producers := q.producers - 1), Deleted, false, q.producers == 1, false)
  }

  class ThreadSafeSimpleQueue<T> {
    var m_queue: seq<Item<T>>
    const m_capacity: nat
    var m_producers: int

    ghost function Abs(): Bounded<T>
      reads this
    {
      Bounded(m_capacity, m_queue, m_producers)
    }

    constructor (capacity: nat, producers: nat)
      ensures Abs() == Bounded(capacity, [], producers)
    {
      m_capacity := capacity;
      m_producers := producers;
      m_queue := [];
    }

    method Push(value: Item<T>) returns (done: Done<T>, emptyOne: bool)
      modifies `m_queue
      ensures Step(Abs(), done, emptyOne, false, false) == PushStep(old(Abs()), value)
    {
      if |m_queue| >= m_capacity {
        return WaitOn(FullCV), false;
      }
      m_queue := m_queue + [value];
      return Pushed, true;
    }

    method Pop() returns (done: Done<T>, fullOne: bool)
      modifies `m_queue
      ensures Step(Abs(), done, false, false, fullOne) == PopStep(old(Abs()))
    {
      if m_queue == [] && m_producers != 0 {
        return WaitOn(EmptyCV), false;
      }
      if m_queue == [] && m_producers == 0 {
        return Empty("Queue is empty"), false;
      }
      var res := m_queue[0];
      m_queue := m_queue[1..];
      return Popped(res), true;
    }

    method DeleteProducer() returns (done: Done<T>, emptyAll: bool)
      requires m_producers > 0
      modifies `m_producers
      ensures Step(Abs(), done, false, emptyAll, false) == DeleteStep(old(Abs()))
    {
      m_producers := m_producers - 1;
      return Deleted, m_producers == 0;
    }
  }

  // ------------------------------------------------------------------
  // Producers and consumers; cfg.size is the capacity
  // ------------------------------------------------------------------

  datatype Sys<T> = Sys(
    q: Bounded<T>,
    prod: seq<Thread>,
    k: seq<nat>,
    cons: seq<Thread>,
    log: seq<Item<T>>,
    out: seq<Item<T>>)

  datatype Action =
    | Push(i: nat, wake: nat)
    | Delete(i: nat)
    | Pop(c: nat, wake: nat)
    | SpuriousProducer(i: nat)
    | SpuriousConsumer(c: nat)

  ghost predicate WellFormed<T>(cfg: Config<T>, s: Sys<T>) {
    && ValidConfig(cfg)
    && s.q.capacity == cfg.size
    && |s.prod| == |s.k| == |cfg.src|
    && (forall i :: 0 <= i < |s.k| ==> s.k[i] <= |cfg.src[i]|)
  }

  function Start<T>(cfg: Config<T>, consumers: nat): Sys<T> {
    Sys(Bounded(cfg.size, [], |cfg.src|), seq(|cfg.src|, _ => Running), Zeros(|cfg.src|),
        seq(consumers, _ => Running), [], [])
  }

  ghost predicate Enabled<T>(cfg: Config<T>, s: Sys<T>, a: Action)
    requires WellFormed(cfg, s)
  {
    match a
    case Push(i, wake) => i < |s.prod| && CanRun(s.prod[i]) && s.k[i] < |cfg.src[i]| && Choice(s.cons, wake, EmptyCV)
    case Delete(i) => i < |s.prod| && CanRun(s.prod[i]) && s.k[i] == |cfg.src[i]|
    case Pop(c, wake) => c < |s.cons| && CanRun(s.cons[c]) && Choice(s.prod, wake, FullCV)
    case SpuriousProducer(i) => i < |s.prod| && s.prod[i].Asleep?
    case SpuriousConsumer(c) => c < |s.cons| && s.cons[c].Asleep?
  }

  predicate Spurious(a: Action) {
    a.SpuriousProducer? || a.SpuriousConsumer?
  }

  function Settle<T>(s: Sys<T>, step: Step<T>, wake: nat): Sys<T> {
    s.(q := step.q,
       prod := if step.fullOne then WakeOne(s.prod, wake, FullCV) else s.prod,
       cons := if step.emptyAll then WakeAll(s.cons, EmptyCV)
               else if step.emptyOne then WakeOne(s.cons, wake, EmptyCV)
               else s.cons)
  }

  ghost function Apply<T>(cfg: Config<T>, s: Sys<T>, a: Action): Sys<T>
    requires WellFormed(cfg, s) && Enabled(cfg, s, a)
  {
    match a
    case Push(i, wake) =>
      var val := cfg.src[i][s.k[i]];
      var step := PushStep(s.q, val);
      if step.done.WaitOn? then
        s.(prod := s.prod[i := Asleep(step.done.cv)])
      else
        Settle(s.(prod := s.prod[i := Running], k := s.k[i := s.k[i] + 1], log := s.log + [val]), step, wake)
    case Delete(i) =>
      Settle(s.(prod := s.prod[i := Gone]), DeleteStep(s.q), 0)
    case Pop(c, wake) =>
      var step := PopStep(s.q);
      (match step.done
       case WaitOn(cv) => s.(cons := s.cons[c := Asleep(cv)])
       case Empty(_) => s.(cons := s.cons[c := Gone])
       case Popped(item) => Settle(s.(cons := s.cons[c := Running], out := s.out + [item]), step, wake)
       case _ => s)
    case SpuriousProducer(i) => s.(prod := s.prod[i := Woken])
    case SpuriousConsumer(c) => s.(cons := s.cons[c := Woken])
  }

  ghost predicate Next<T>(cfg: Config<T>, s: Sys<T>, s': Sys<T>) {
    WellFormed(cfg, s) && exists a :: Enabled(cfg, s, a) && s' == Apply(cfg, s, a)
  }

  ghost predicate Move<T>(cfg: Config<T>, s: Sys<T>, s': Sys<T>) {
    WellFormed(cfg, s) && exists a :: Enabled(cfg, s, a) && !Spurious(a) && s' == Apply(cfg, s, a)
  }

  ghost predicate Stuck<T>(cfg: Config<T>, s: Sys<T>) {
    WellFormed(cfg, s) && forall a :: Enabled(cfg, s, a) ==> Spurious(a)
  }

  ghost predicate Run<T>(cfg: Config<T>, ss: seq<Sys<T>>) {
    forall n :: 0 <= n < |ss| - 1 ==> Next(cfg, ss[n], ss[n + 1])
  }

  // ------------------------------------------------------------------
  // The invariant
  // ------------------------------------------------------------------

  /** Consumers sleep on the empty condition variable, and only while the woken
      ones can take all there is; producers sleep on the full one, and only while
      the woken ones can fill all the room there is. */
  ghost predicate SleepersWait(prod: seq<Thread>, cons: seq<Thread>, size: int, room: int, producers: int) {
    && SleepOn(cons, EmptyCV) && SleepOn(prod, FullCV)
    && (Asleep(EmptyCV) in cons ==> size <= Number(cons, Woken) && producers > 0)
    && (Asleep(FullCV) in prod ==> room <= Number(prod, Woken))
    && (Gone in cons ==> size == 0 && producers == 0)
    && producers == Present(prod)
  }

  ghost predicate ProducersAt<T>(src: seq<seq<Item<T>>>, prod: seq<Thread>, k: seq<nat>) {
    && |src| == |prod| == |k|
    && forall i :: 0 <= i < |prod| ==>
      && k[i] <= |src[i]|
      && (prod[i] == Gone ==> k[i] == |src[i]|)
      && (prod[i].Asleep? || prod[i] == Woken ==> k[i] < |src[i]|)
  }

  ghost predicate Logged<T>(ids: seq<int>, src: seq<seq<Item<T>>>, k: seq<nat>, log: seq<Item<T>>) {
    && Distinct(ids) && |src| == |k| && (forall i :: 0 <= i < |k| ==> k[i] <= |src[i]|)
    && (forall x :: x in log ==> x.part in ids)
    && forall i :: 0 <= i < |k| ==> By(log, NumberOf(ids), i) == src[i][..k[i]]
  }

  ghost predicate QueueInv<T>(cfg: Config<T>, s: Sys<T>) {
    && WellFormed(cfg, s)
    && |s.q.items| <= s.q.capacity
    && s.log == s.out + s.q.items
    && Logged(cfg.ids, cfg.src, s.k, s.log)
    && ProducersAt(cfg.src, s.prod, s.k)
    && SleepersWait(s.prod, s.cons, |s.q.items|, s.q.capacity - |s.q.items|, s.q.producers)
  }

  lemma StartInv<T>(cfg: Config<T>, consumers: nat)
    requires ValidConfig(cfg)
    ensures QueueInv(cfg, Start(cfg, consumers))
  {
    hide Logged, ProducersAt, SleepersWait;
    StartLogged<T>(cfg);
    StartProducers(cfg.src);
    StartSleepers(|cfg.src|, consumers, cfg.size);
  }

  lemma StartLogged<T>(cfg: Config<T>)
    requires ValidConfig(cfg)
    ensures Logged(cfg.ids, cfg.src, Zeros(|cfg.src|), [])
  {
    hide NumberOf;
  }

  lemma StartProducers<T>(src: seq<seq<Item<T>>>)
    ensures ProducersAt(src, seq(|src|, _ => Running), Zeros(|src|))
  {
  }

  lemma StartSleepers(producers: nat, consumers: nat, room: int)
    ensures SleepersWait(seq(producers, _ => Running), seq(consumers, _ => Running), 0, room, producers)
  {
    NumberZero(seq(producers, _ => Running), Gone);
  }

  lemma LoggedPush<T>(cfg: Config<T>, k: seq<nat>, log: seq<Item<T>>, i: nat)
    requires ValidConfig(cfg) && Logged(cfg.ids, cfg.src, k, log) && i < |k| && k[i] < |cfg.src[i]|
    ensures Logged(cfg.ids, cfg.src, k[i := k[i] + 1], log + [cfg.src[i][k[i]]])
  {
    hide By, NumberOf;
    var val := cfg.src[i][k[i]];
    var number := NumberOf(cfg.ids);
    NumberOfMembers(cfg.ids);
    forall a | 0 <= a < |k|
      ensures By(log + [val], number, a) == By(log, number, a) + (if a == i then [val] else [])
    {
      ByConcat(log, [val], number, a);
      ByOne(val, number, a);
    }
  }

  lemma SleepersPush(prod: seq<Thread>, cons: seq<Thread>, size: nat, room: int, producers: int, i: nat, wake: nat)
    requires SleepersWait(prod, cons, size, room, producers)
    requires i < |prod| && CanRun(prod[i]) && Choice(cons, wake, EmptyCV)
    ensures room > 0 ==> SleepersWait(prod[i := Running], WakeOne(cons, wake, EmptyCV), size + 1, room - 1, producers)
    ensures room <= 0 ==> SleepersWait(prod[i := Asleep(FullCV)], cons, size, room, producers)
  {
    NumberOne(prod, i, Running, Woken);
    NumberOne(prod, i, Running, Gone);
    NumberOne(prod, i, Asleep(FullCV), Gone);
    NumberZero(prod[i := Running], Woken);
    NumberZero(prod[i := Asleep(FullCV)], Woken);
    PresentOne(prod, i);
    if Asleep(EmptyCV) in cons {
      NumberOne(cons, wake, Woken, Woken);
    }
  }

  lemma PresentOne(prod: seq<Thread>, i: nat)
    requires i < |prod| && prod[i] != Gone
    ensures Present(prod) > 0
  {
    NumberOne(prod, i, Gone, Gone);
    NumberZero(prod[i := Gone], Gone);
  }

  lemma SleepersDelete(prod: seq<Thread>, cons: seq<Thread>, size: nat, room: int, producers: int, i: nat)
    requires SleepersWait(prod, cons, size, room, producers) && i < |prod| && prod[i] == Running
    ensures SleepersWait(prod[i := Gone], if producers == 1 then WakeAll(cons, EmptyCV) else cons, size, room,
                producers - 1)
  {
    NumberOne(prod, i, Gone, Gone);
    NumberOne(prod, i, Gone, Woken);
    PresentOne(prod, i);
    WakeAllMembers(cons, EmptyCV);
  }

  lemma SleepersPop(prod: seq<Thread>, cons: seq<Thread>, size: nat, room: int, producers: int, c: nat, wake: nat)
    requires SleepersWait(prod, cons, size, room, producers)
    requires c < |cons| && CanRun(cons[c]) && Choice(prod, wake, FullCV)
    ensures size > 0 ==> SleepersWait(WakeOne(prod, wake, FullCV), cons[c := Running], size - 1, room + 1, producers)
    ensures size == 0 && producers != 0 ==> SleepersWait(prod, cons[c := Asleep(EmptyCV)], size, room, producers)
    ensures size == 0 && producers == 0 ==> SleepersWait(prod, cons[c := Gone], size, room, producers)
  {
    NumberOne(cons, c, Running, Woken);
    NumberZero(cons[c := Asleep(EmptyCV)], Woken);
    NumberOne(cons, c, Gone, Woken);
    if Asleep(FullCV) in prod {
      NumberOne(prod, wake, Woken, Woken);
      NumberOne(prod, wake, Woken, Gone);
    }
    NumberZero(prod, Gone);
  }

  lemma PushKeeps<T>(cfg: Config<T>, s: Sys<T>, i: nat, wake: nat)
    requires QueueInv(cfg, s) && Enabled(cfg, s, Push(i, wake))
    ensures QueueInv(cfg, Apply(cfg, s, Push(i, wake)))
  {
    hide ValidConfig, Logged, SleepersWait;
    LoggedPush(cfg, s.k, s.log, i);
    SleepersPush(s.prod, s.cons, |s.q.items|, s.q.capacity - |s.q.items|, s.q.producers, i, wake);
  }

  lemma DeleteKeeps<T>(cfg: Config<T>, s: Sys<T>, i: nat)
    requires QueueInv(cfg, s) && Enabled(cfg, s, Delete(i))
    ensures QueueInv(cfg, Apply(cfg, s, Delete(i)))
  {
    hide ValidConfig, Logged, SleepersWait;
    SleepersDelete(s.prod, s.cons, |s.q.items|, s.q.capacity - |s.q.items|, s.q.producers, i);
  }

  lemma PopKeeps<T>(cfg: Config<T>, s: Sys<T>, c: nat, wake: nat)
    requires QueueInv(cfg, s) && Enabled(cfg, s, Pop(c, wake))
    ensures QueueInv(cfg, Apply(cfg, s, Pop(c, wake)))
  {
    hide ValidConfig, Logged, SleepersWait;
    SleepersPop(s.prod, s.cons, |s.q.items|, s.q.capacity - |s.q.items|, s.q.producers, c, wake);
    if s.q.items != [] {
      assert s.log == (s.out + [s.q.items[0]]) + s.q.items[1..];
    }
  }

  lemma NextKeeps<T>(cfg: Config<T>, s: Sys<T>, s': Sys<T>)
    requires QueueInv(cfg, s) && Next(cfg, s, s')
    ensures QueueInv(cfg, s') && |s'.cons| == |s.cons|
  {
    hide ValidConfig, Logged, SleepersWait;
    var a :| Enabled(cfg, s, a) && s' == Apply(cfg, s, a);
    match a
    case Push(i, wake) => PushKeeps(cfg, s, i, wake);
    case Delete(i) => DeleteKeeps(cfg, s, i);
    case Pop(c, wake) => PopKeeps(cfg, s, c, wake);
    case SpuriousProducer(i) =>
      SleepersSpurious(s.prod, s.cons, |s.q.items|, s.q.capacity - |s.q.items|, s.q.producers, i, |s.cons|);
    case SpuriousConsumer(c) =>
      SleepersSpurious(s.prod, s.cons, |s.q.items|, s.q.capacity - |s.q.items|, s.q.producers, |s.prod|, c);
  }

  lemma SleepersSpurious(prod: seq<Thread>, cons: seq<Thread>, size: nat, room: int, producers: int, i: nat, c: nat)
    requires SleepersWait(prod, cons, size, room, producers)
    ensures i < |prod| && prod[i].Asleep? ==> SleepersWait(prod[i := Woken], cons, size, room, producers)
    ensures c < |cons| && cons[c].Asleep? ==> SleepersWait(prod, cons[c := Woken], size, room, producers)
  {
    if i < |prod| {
      NumberOne(prod, i, Woken, Woken);
      NumberOne(prod, i, Woken, Gone);
    }
    if c < |cons| {
      NumberOne(cons, c, Woken, Woken);
    }
  }

  lemma {:induction false} RunInv<T>(cfg: Config<T>, consumers: nat, ss: seq<Sys<T>>, n: nat)
    requires ValidConfig(cfg) && Run(cfg, ss) && n < |ss| && ss[0] == Start(cfg, consumers)
    ensures QueueInv(cfg, ss[n]) && |ss[n].cons| == consumers
  {
    hide QueueInv, Start;
    if n == 0 {
      StartInv(cfg, consumers);
      assert |Start(cfg, consumers).cons| == consumers by {
        ConsumerCount(cfg, consumers);
      }
    } else {
      RunInv(cfg, consumers, ss, n - 1);
      assert Next(cfg, ss[n - 1], ss[n]);
      NextKeeps(cfg, ss[n - 1], ss[n]);
    }
  }

  /** In every state of every run, with barging and spurious wakeups: the queue
      keeps to its capacity and hands out a prefix of what was pushed, sleeping
      consumers mean that the notified ones can take all there is and more may
      come, sleeping producers that the notified ones can fill all the room. */
  lemma NoLostWakeup<T>(cfg: Config<T>, consumers: nat, ss: seq<Sys<T>>, n: nat)
    requires ValidConfig(cfg) && Run(cfg, ss) && n < |ss| && ss[0] == Start(cfg, consumers)
    ensures var s := ss[n];
            && |s.q.items| <= cfg.size && s.log == s.out + s.q.items
            && SleepOn(s.cons, EmptyCV) && SleepOn(s.prod, FullCV)
            && (Asleep(EmptyCV) in s.cons ==> |s.q.items| <= Number(s.cons, Woken) && s.q.producers > 0)
            && (Asleep(FullCV) in s.prod ==> cfg.size - |s.q.items| <= Number(s.prod, Woken))
            && s.q.producers == Present(s.prod)
  {
    hide Run, Start, Logged, ProducersAt;
    RunInv(cfg, consumers, ss, n);
  }

  lemma ConsumerCount<T>(cfg: Config<T>, consumers: nat)
    ensures |Start(cfg, consumers).cons| == consumers
  {
  }

  // ------------------------------------------------------------------
  // What every run achieves
  // ------------------------------------------------------------------

  ghost predicate AllDone<T>(s: Sys<T>) {
    (forall i :: 0 <= i < |s.prod| ==> s.prod[i] == Gone) && (forall c :: 0 <= c < |s.cons| ==> s.cons[c] == Gone)
  }

  lemma NobodyPresent(prod: seq<Thread>)
    ensures Present(prod) == 0 <==> forall i :: 0 <= i < |prod| ==> prod[i] == Gone
  {
    if forall i :: 0 <= i < |prod| ==> prod[i] == Gone {
      NumberAll(prod, Gone);
    } else {
      var i :| 0 <= i < |prod| && prod[i] != Gone;
      PresentOne(prod, i);
    }
  }

  /** With room for one item and one consumer there is no deadlock. */
  lemma DeadlockFree<T>(cfg: Config<T>, s: Sys<T>)
    requires QueueInv(cfg, s) && |s.cons| > 0
    ensures Stuck(cfg, s) ==> AllDone(s)
  {
    hide Logged, ValidConfig;
    assert s.q.capacity >= 1 by {
      CapacityPositive(cfg);
    }
    NobodyPresent(s.prod);
    if c :| 0 <= c < |s.cons| && CanRun(s.cons[c]) {
      var wake := ChoiceExists(s.prod, FullCV);
      assert Enabled(cfg, s, Pop(c, wake));
    } else if i :| 0 <= i < |s.prod| && CanRun(s.prod[i]) {
      var wake := ChoiceExists(s.cons, EmptyCV);
      assert Enabled(cfg, s, if s.k[i] < |cfg.src[i]| then Push(i, wake) else Delete(i));
    } else {
      NumberZero(s.cons, Woken);
      NumberZero(s.prod, Woken);
      assert s.cons[0] == Asleep(EmptyCV) || s.cons[0] == Gone;
    }
  }

  lemma CapacityPositive<T>(cfg: Config<T>)
    requires ValidConfig(cfg)
    ensures cfg.size >= 1
  {
  }

  /** Pop throws only when all producers have left and every item they pushed
      has been delivered, each producer's items in order. */
  lemma PopThrowsAtTheEnd<T>(cfg: Config<T>, s: Sys<T>)
    requires QueueInv(cfg, s) && PopStep(s.q).done.Empty?
    ensures PopStep(s.q).done.message == "Queue is empty"
    ensures forall i :: 0 <= i < |s.prod| ==> s.prod[i] == Gone
    ensures s.out == s.log
    ensures Distinct(cfg.ids) && forall i :: 0 <= i < |cfg.src| ==> By(s.out, NumberOf(cfg.ids), i) == cfg.src[i]
  {
    NobodyPresent(s.prod);
  }

  lemma Completes<T>(cfg: Config<T>, consumers: nat, ss: seq<Sys<T>>)
    requires ValidConfig(cfg) && consumers > 0
    requires |ss| > 0 && ss[0] == Start(cfg, consumers) && Run(cfg, ss) && Stuck(cfg, ss[|ss| - 1])
    ensures var s := ss[|ss| - 1];
            && AllDone(s)
            && s.out == s.log
            && (forall x :: x in s.out ==> x.part in cfg.ids)
            && forall i :: 0 <= i < |cfg.src| ==> By(s.out, NumberOf(cfg.ids), i) == cfg.src[i]
  {
    hide Start, Stuck, By;
    var s := ss[|ss| - 1];
    RunInv(cfg, consumers, ss, |ss| - 1);
    DeadlockFree(cfg, s);
    assert s.cons[0] == Gone;
    PopThrowsAtTheEnd(cfg, s);
  }

  ghost function Work<T>(cfg: Config<T>, s: Sys<T>): int
    requires WellFormed(cfg, s)
  {
    2 * Sum(Unpushed(cfg.src, s.k)) + |s.q.items| + s.q.producers + Present(s.cons)
  }

  ghost function Measure<T>(cfg: Config<T>, s: Sys<T>): int
    requires WellFormed(cfg, s)
  {
    Work(cfg, s) * (|s.prod| + |s.cons| + 1) + Awake(s.prod) + Awake(s.cons)
  }

  ghost predicate Progress<T>(cfg: Config<T>, s: Sys<T>, s': Sys<T>)
    requires WellFormed(cfg, s) && WellFormed(cfg, s')
  {
    && |s'.prod| == |s.prod| && |s'.cons| == |s.cons|
    && (|| Work(cfg, s') < Work(cfg, s)
        || (Work(cfg, s') == Work(cfg, s) && Awake(s'.prod) + Awake(s'.cons) < Awake(s.prod) + Awake(s.cons)))
  }

  lemma PushProgress<T>(cfg: Config<T>, s: Sys<T>, i: nat, wake: nat)
    requires WellFormed(cfg, s) && Enabled(cfg, s, Push(i, wake))
    requires WellFormed(cfg, Apply(cfg, s, Push(i, wake)))
    ensures Progress(cfg, s, Apply(cfg, s, Push(i, wake)))
  {
    hide Sum, ValidConfig;
    AwakeOne(s.prod, i, Asleep(FullCV));
    UnpushedOne(cfg.src, s.k, i);
    if wake < |s.cons| {
      NumberOne(s.cons, wake, Woken, Gone);
    }
  }

  lemma DeleteProgress<T>(cfg: Config<T>, s: Sys<T>, i: nat)
    requires WellFormed(cfg, s) && Enabled(cfg, s, Delete(i))
    requires WellFormed(cfg, Apply(cfg, s, Delete(i)))
    ensures Progress(cfg, s, Apply(cfg, s, Delete(i)))
  {
    hide Sum, ValidConfig;
    WakeAllPresent(s.cons, EmptyCV);
  }

  lemma PopProgress<T>(cfg: Config<T>, s: Sys<T>, c: nat, wake: nat)
    requires WellFormed(cfg, s) && Enabled(cfg, s, Pop(c, wake))
    requires WellFormed(cfg, Apply(cfg, s, Pop(c, wake)))
    ensures Progress(cfg, s, Apply(cfg, s, Pop(c, wake)))
  {
    hide Sum, ValidConfig, Number, Awake;
    AwakeOne(s.cons, c, Asleep(EmptyCV));
    NumberOne(s.cons, c, Asleep(EmptyCV), Gone);
    NumberOne(s.cons, c, Gone, Gone);
    NumberOne(s.cons, c, Running, Gone);
  }

  lemma WorkFloor<T>(cfg: Config<T>, s: Sys<T>)
    requires QueueInv(cfg, s)
    ensures Work(cfg, s) >= 0
  {
    hide Sum, ValidConfig, Logged;
    AwakeBound(s.cons);
    AwakeBound(s.prod);
  }

  lemma MoveDecreases<T>(cfg: Config<T>, s: Sys<T>, s': Sys<T>)
    requires QueueInv(cfg, s) && Move(cfg, s, s')
    ensures QueueInv(cfg, s') && 0 <= Measure(cfg, s') < Measure(cfg, s)
  {
    hide Apply, Enabled, Work, Awake, ValidConfig, Logged, SleepersWait, ProducersAt;
    var a :| Enabled(cfg, s, a) && !Spurious(a) && s' == Apply(cfg, s, a);
    NextKeeps(cfg, s, s');
    match a {
      case Push(i, wake) => PushProgress(cfg, s, i, wake);
      case Delete(i) => DeleteProgress(cfg, s, i);
      case Pop(c, wake) => PopProgress(cfg, s, c, wake);
    }
    AwakeBound(s.prod);
    AwakeBound(s.cons);
    AwakeBound(s'.prod);
    AwakeBound(s'.cons);
    WorkFloor(cfg, s');
    MeasureDrop(Work(cfg, s), Work(cfg, s'), |s.prod| + |s.cons|,
                Awake(s.prod) + Awake(s.cons), Awake(s'.prod) + Awake(s'.cons));
  }

  /** A spurious wakeup does no work; it only wakes a thread. */
  lemma OtherwiseOneMore<T>(cfg: Config<T>, s: Sys<T>, s': Sys<T>)
    requires QueueInv(cfg, s) && Next(cfg, s, s') && !Move(cfg, s, s')
    ensures QueueInv(cfg, s') && Measure(cfg, s') == Measure(cfg, s) + 1
  {
    hide QueueInv, Apply, Measure;
    NextKeeps(cfg, s, s');
    var a :| Enabled(cfg, s, a) && s' == Apply(cfg, s, a);
    assert Spurious(a);
    SpuriousMeasure(cfg, s, a);
  }

  lemma SpuriousMeasure<T>(cfg: Config<T>, s: Sys<T>, a: Action)
    requires WellFormed(cfg, s) && Enabled(cfg, s, a) && Spurious(a)
    ensures WellFormed(cfg, Apply(cfg, s, a)) && Measure(cfg, Apply(cfg, s, a)) == Measure(cfg, s) + 1
  {
    hide Sum, ValidConfig;
    match a {
      case SpuriousProducer(i) => AwakeOne(s.prod, i, Woken);
      case SpuriousConsumer(c) =>
        AwakeOne(s.cons, c, Woken);
        NumberOne(s.cons, c, Woken, Gone);
    }
  }

  /** The steps of a run that are nothing but spurious wakeups. */
  ghost function Idle<T>(cfg: Config<T>, ss: seq<Sys<T>>): nat {
    if |ss| < 2 then 0
    else
      var n := |ss| - 1;
      Idle(cfg, ss[..n]) + (if Move(cfg, ss[n - 1], ss[n]) then 0 else 1)
  }

  /** Termination: a run has at most Measure(start) steps, and two more for each
      spurious wakeup. */
  lemma {:induction false} RunTerminates<T>(cfg: Config<T>, consumers: nat, ss: seq<Sys<T>>)
    requires ValidConfig(cfg) && |ss| > 0 && ss[0] == Start(cfg, consumers) && Run(cfg, ss)
    ensures QueueInv(cfg, ss[|ss| - 1]) && QueueInv(cfg, ss[0]) && Measure(cfg, ss[|ss| - 1]) >= 0
    ensures |ss| - 1 + Measure(cfg, ss[|ss| - 1]) <= Measure(cfg, ss[0]) + 2 * Idle(cfg, ss)
  {
    hide Measure, Move, Next, Logged, SleepersWait, ProducersAt, Start;
    StartInv(cfg, consumers);
    var n := |ss| - 1;
    if n == 0 {
      MeasureFloor(cfg, ss[0]);
    } else {
      RunTerminates(cfg, consumers, ss[..n]);
      assert Next(cfg, ss[n - 1], ss[n]);
      if Move(cfg, ss[n - 1], ss[n]) {
        MoveDecreases(cfg, ss[n - 1], ss[n]);
      } else {
        OtherwiseOneMore(cfg, ss[n - 1], ss[n]);
      }
    }
  }

  lemma MeasureFloor<T>(cfg: Config<T>, s: Sys<T>)
    requires QueueInv(cfg, s)
    ensures Measure(cfg, s) >= 0
  {
    hide Work, Awake, Logged, SleepersWait, ProducersAt, ValidConfig;
    AwakeBound(s.prod);
    AwakeBound(s.cons);
    WorkFloor(cfg, s);
    assert Work(cfg, s) * (|s.prod| + |s.cons| + 1) >= 0;
  }
}
