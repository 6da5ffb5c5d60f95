/** A later pass over a fresh batch queue with the same producers: each consumer
    asks by partition and id, with Get, for the items on its own list. */
module SecondPass {
  import opened Prelude
  import opened BatchCore
  import opened Threads
  import opened BatchThreads

  /** Consumer c has got the first pos[c] items of its list; taken is
      everything that has left the queue. */
  datatype Sys<T> = Sys(
    q: Queue<T>,
    prod: seq<Thread>,
    k: seq<nat>,
    cons: seq<Thread>,
    pos: seq<nat>,
    got: seq<seq<Item<T>>>,
    ghost taken: set<Item<T>>)

  datatype Action =
    | Push(i: nat)
    | Delete(i: nat)
    | Get(c: nat)
    | SpuriousProducer(i: nat)
    | SpuriousConsumer(c: nat)

  ghost predicate WellFormed<T>(cfg: Config<T>, lists: seq<seq<Item<T>>>, s: Sys<T>) {
    && ValidConfig(cfg)
    && Shaped(s.q)
    && Numbered(s.q.number, cfg.ids)
    && s.q.batchSize == cfg.size
    && |s.prod| == |s.k| == |cfg.src| == |s.q.active|
    && |s.cons| == |s.pos| == |s.got| == |lists|
    && (forall i :: 0 <= i < |s.k| ==> s.k[i] <= |cfg.src[i]|)
    && (forall c :: 0 <= c < |lists| ==> s.pos[c] <= |lists[c]|)
    && (forall c, x :: 0 <= c < |lists| && 0 <= x < |lists[c]| ==> lists[c][x].part in s.q.number)
    && (s.q.items == 0 ==> NothingSet(s.q))
  }

  function Start<T>(cfg: Config<T>, lists: seq<seq<Item<T>>>): Sys<T>
    requires Distinct(cfg.ids)
  {
    Sys(NewQueue(cfg.ids, cfg.size), seq(|cfg.src|, _ => Running), Zeros(|cfg.src|),
        seq(|lists|, _ => Running), Zeros(|lists|), seq(|lists|, _ => []), {})
  }

  ghost predicate Enabled<T>(cfg: Config<T>, lists: seq<seq<Item<T>>>, s: Sys<T>, a: Action)
    requires WellFormed(cfg, lists, s)
  {
    match a
    case Push(i) => i < |s.prod| && CanRun(s.prod[i]) && s.k[i] < |cfg.src[i]|
    case Delete(i) => i < |s.prod| && CanRun(s.prod[i]) && s.k[i] == |cfg.src[i]|
    case Get(c) => c < |s.cons| && CanRun(s.cons[c]) && s.pos[c] < |lists[c]|
    case SpuriousProducer(i) => i < |s.prod| && s.prod[i].Asleep?
    case SpuriousConsumer(c) => c < |s.cons| && s.cons[c].Asleep?
  }

  predicate Spurious(a: Action) {
    a.SpuriousProducer? || a.SpuriousConsumer?
  }

  predicate Notified(t: Thread, audience: Audience) {
    t.Asleep? && t.cv.DataCV? && audience.Includes(t.cv.producer)
  }

  /** `notify_all` on the data condition variables of the audience. */
  ghost function WakeData(cons: seq<Thread>, audience: Audience): seq<Thread> {
    seq(|cons|, c requires 0 <= c < |cons| => if Notified(cons[c], audience) then Woken else cons[c])
  }

  ghost function Settle<T>(cfg: Config<T>, lists: seq<seq<Item<T>>>, s: Sys<T>, sec: Section<T>): Sys<T>
    requires WellFormed(cfg, lists, s)
  {
    s.(q := sec.q,
       prod := if sec.signals.busyAll then WakeAll(s.prod, BusyCV) else s.prod,
       cons := WakeData(s.cons, sec.signals.data))
  }

  /** The section a Get runs: from the start, or from its wait loop on. */
  ghost function GetRuns<T>(cfg: Config<T>, lists: seq<seq<Item<T>>>, s: Sys<T>, c: nat): Section<T>
    requires WellFormed(cfg, lists, s) && Enabled(cfg, lists, s, Get(c))
  {
    var r := lists[c][s.pos[c]];
    if s.cons[c] == Running then GetSection(s.q, r.part, r.id) else ResumeGet(s.q, r.part, r.id)
  }

  ghost function Apply<T>(cfg: Config<T>, lists: seq<seq<Item<T>>>, s: Sys<T>, a: Action): Sys<T>
    requires WellFormed(cfg, lists, s) && Enabled(cfg, lists, s, a)
  {
    match a
    case Push(i) =>
      var sec := PushSection(s.q, cfg.src[i][s.k[i]]);
      if sec.outcome.Wait? then
        s.(prod := s.prod[i := Asleep(sec.outcome.cv)])
      else
        Settle(cfg, lists, s.(prod := s.prod[i := Running]), sec).(k := s.k[i := s.k[i] + 1])
    case Delete(i) =>
      Settle(cfg, lists, s.(prod := s.prod[i := Gone]), DeleteSection(s.q, cfg.ids[i]))
    case Get(c) =>
      var sec := GetRuns(cfg, lists, s, c);
      (match sec.outcome
       case Wait(cv) => s.(cons := s.cons[c := Asleep(cv)])
       case Thrown(_) => s.(cons := s.cons[c := Gone])
       case Delivered(item) =>
         Settle(cfg, lists, s.(cons := s.cons[c := Running], pos := s.pos[c := s.pos[c] + 1]), sec)
           .(got := s.got[c := s.got[c] + [item]], taken := s.taken + {item})
       case Returned => s)
    case SpuriousProducer(i) => s.(prod := s.prod[i := Woken])
    case SpuriousConsumer(c) => s.(cons := s.cons[c := Woken])
  }

  ghost predicate Next<T>(cfg: Config<T>, lists: seq<seq<Item<T>>>, s: Sys<T>, s': Sys<T>) {
    WellFormed(cfg, lists, s) && exists a :: Enabled(cfg, lists, s, a) && s' == Apply(cfg, lists, s, a)
  }

  ghost predicate Move<T>(cfg: Config<T>, lists: seq<seq<Item<T>>>, s: Sys<T>, s': Sys<T>) {
    && WellFormed(cfg, lists, s)
    && exists a :: Enabled(cfg, lists, s, a) && !Spurious(a) && s' == Apply(cfg, lists, s, a)
  }

  ghost predicate Run<T>(cfg: Config<T>, lists: seq<seq<Item<T>>>, ss: seq<Sys<T>>) {
    forall n :: 0 <= n < |ss| - 1 ==> Next(cfg, lists, ss[n], ss[n + 1])
  }

  // ------------------------------------------------------------------
  // The invariant
  // ------------------------------------------------------------------

  /** Every Get so far has returned the item it named, and of each list
      exactly the first pos[c] items have left the queue. */
  ghost predicate Followed<T>(lists: seq<seq<Item<T>>>, pos: seq<nat>, got: seq<seq<Item<T>>>, taken: set<Item<T>>) {
    && |lists| == |pos| == |got|
    && forall c :: 0 <= c < |lists| ==>
      && pos[c] <= |lists[c]|
      && got[c] == lists[c][..pos[c]]
      && forall x :: 0 <= x < |lists[c]| ==> (lists[c][x] in taken <==> x < pos[c])
  }

  /** The slot for item r is free, or the current batch is not r's. */
  ghost predicate NotReady<T>(q: Queue<T>, r: Item<T>) {
    && q.batchSize >= 1 && r.part in q.number
    && var i := q.number[r.part];
    && i < |q.slots| && r.id % q.batchSize < |q.slots[i]|
    && (q.slots[i][r.id % q.batchSize].None? || r.id / q.batchSize != q.batch)
  }

  /** Sleeping consumers sleep on the data condition variable of the producer they
      ask. */
  ghost predicate SleepOnData<T>(number: map<int, nat>, cons: seq<Thread>, lists: seq<seq<Item<T>>>, pos: seq<nat>) {
    && |cons| == |lists| == |pos|
    && forall c :: 0 <= c < |cons| && cons[c].Asleep? ==>
      && pos[c] < |lists[c]| && lists[c][pos[c]].part in number
      && cons[c].cv == DataCV(number[lists[c][pos[c]].part])
  }

  /** No consumer has thrown, and each sleeping one still has a reason to. */
  ghost predicate GettersWait<T>(q: Queue<T>, cons: seq<Thread>, lists: seq<seq<Item<T>>>, pos: seq<nat>) {
    && |cons| == |lists| == |pos|
    && forall c :: 0 <= c < |cons| ==>
      && cons[c] != Gone
      && (cons[c].Asleep? ==> pos[c] < |lists[c]| && NotReady(q, lists[c][pos[c]]))
  }

  /** The requests name producers of this queue. */
  ghost predicate Addressed<T>(cfg: Config<T>, lists: seq<seq<Item<T>>>) {
    forall c, x :: 0 <= c < |lists| && 0 <= x < |lists[c]| ==> lists[c][x].part in cfg.ids
  }

  /** The requests are for items that are pushed, and for none twice. */
  ghost predicate Askable<T>(cfg: Config<T>, lists: seq<seq<Item<T>>>) {
    && (forall c, x :: 0 <= c < |lists| && 0 <= x < |lists[c]| ==> FromSource(cfg.src, lists[c][x]))
    && Apart(lists)
  }

  /** What holds whatever is asked for. */
  ghost predicate SafeInv<T>(cfg: Config<T>, lists: seq<seq<Item<T>>>, s: Sys<T>) {
    && WellFormed(cfg, lists, s)
    && Inv(s.q, cfg.src, s.k, s.taken)
    && Shared(s.got, s.taken, s.q.batchSize, s.q.batch)
    && ProducersWait(s.prod, s.q.active, s.k, cfg.src, s.q.batchSize, s.q.batch)
    && SleepOnData(s.q.number, s.cons, lists, s.pos)
  }

  /** What holds beside it when the requests can be asked. */
  ghost predicate PassInv<T>(cfg: Config<T>, lists: seq<seq<Item<T>>>, s: Sys<T>) {
    && SafeInv(cfg, lists, s)
    && Followed(lists, s.pos, s.got, s.taken)
    && GettersWait(s.q, s.cons, lists, s.pos)
  }

  // ------------------------------------------------------------------
  // Get returns what it names
  // ------------------------------------------------------------------

  /** An item that is still in the system: if its producer is gone, it is in its slot. */
  lemma WhereItIs<T>(q: Queue<T>, src: seq<seq<Item<T>>>, k: seq<nat>, taken: set<Item<T>>, r: Item<T>)
    requires Inv(q, src, k, taken) && FromSource(src, r) && r !in taken
    ensures r.part in q.number
    ensures var i := q.number[r.part]; var j := r.id % q.batchSize;
            && i < |src| && j < |q.slots[i]|
            && (r.id < k[i] ==> r.id / q.batchSize == q.batch && q.slots[i][j] == Some(r))
            && (r.id / q.batchSize == q.batch && q.slots[i][j].Some? ==> q.slots[i][j] == Some(r))
            && (r.id >= k[i] ==> q.active[i])
            && (r.id >= k[i] && r.id / q.batchSize <= q.batch ==> k[i] / q.batchSize <= q.batch)
  {
    hide ReadBalance, Sum, Counts;
    var i :| 0 <= i < |src| && r.id < |src[i]| && r == src[i][r.id];
    BatchOf(r.id, q.batchSize, q.batch);
    BatchOf(k[i], q.batchSize, q.batch);
    if r.id < k[i] {
      assert Stored(q.slots[i], r.id, Base(q));
    }
  }

  /** Get either sleeps, with a reason, or returns exactly the item asked for;
      it never throws.  Its first test and its wait loop agree on that. */
  lemma GetReturnsIt<T>(q: Queue<T>, src: seq<seq<Item<T>>>, k: seq<nat>, taken: set<Item<T>>, r: Item<T>)
    requires Inv(q, src, k, taken) && FromSource(src, r) && r !in taken
    ensures r.part in q.number && (q.items == 0 ==> NothingSet(q))
    ensures GetSection(q, r.part, r.id) == ResumeGet(q, r.part, r.id)
    ensures var sec := ResumeGet(q, r.part, r.id);
            if NotReady(q, r) then sec.outcome == Wait(DataCV(q.number[r.part])) && sec.q == q
            else sec.outcome == Delivered(r) && Inv(sec.q, src, k, taken + {r})
  {
    NoItems(q);
    WhereItIs(q, src, k, taken, r);
    var i := q.number[r.part];
    if q.activeProducers == 0 {
      NoneActive(q, src, k, taken);
    }
    if !NotReady(q, r) {
      TakeKeeps(q, src, k, taken, i, r.id % q.batchSize);
    }
  }

  // ------------------------------------------------------------------
  // Every step keeps the invariant
  // ------------------------------------------------------------------

  /** A push wakes everyone who sleeps on its producer's condition variable;
      for the others nothing has changed. */
  lemma GettersPush<T>(q: Queue<T>, val: Item<T>, cons: seq<Thread>, lists: seq<seq<Item<T>>>, pos: seq<nat>)
    requires Shaped(q) && val.part in q.number && !PushSection(q, val).outcome.Wait?
    requires GettersWait(q, cons, lists, pos) && SleepOnData(q.number, cons, lists, pos)
    ensures var sec := PushSection(q, val);
            GettersWait(sec.q, WakeData(cons, sec.signals.data), lists, pos)
  {
    var sec := PushSection(q, val);
    var cons' := WakeData(cons, sec.signals.data);
    forall c | 0 <= c < |cons| && cons'[c].Asleep?
      ensures NotReady(sec.q, lists[c][pos[c]])
    {
      assert NotReady(q, lists[c][pos[c]]);
      assert q.number[lists[c][pos[c]].part] != q.number[val.part];
    }
  }

  /** The end of a batch wakes every sleeper. */
  lemma GettersEndBatch<T>(q: Queue<T>, cons: seq<Thread>, lists: seq<seq<Item<T>>>, pos: seq<nat>)
    requires Shaped(q) && GettersWait(q, cons, lists, pos) && SleepOnData(q.number, cons, lists, pos)
    ensures var (q', sig) := EndBatch(q);
            GettersWait(q', WakeData(cons, sig.data), lists, pos)
  {
    var (q', sig) := EndBatch(q);
    var cons' := WakeData(cons, sig.data);
    forall c | 0 <= c < |cons| && cons'[c].Asleep?
      ensures NotReady(q', lists[c][pos[c]])
    {
      assert NotReady(q, lists[c][pos[c]]);
    }
  }

  lemma GettersTake<T>(q: Queue<T>, i: nat, j: nat, cons: seq<Thread>, lists: seq<seq<Item<T>>>, pos: seq<nat>, c: nat)
    requires Shaped(q) && q.items > 0 && i < |q.slots| && j < q.batchSize
    requires GettersWait(q, cons, lists, pos) && c < |cons| && pos[c] < |lists[c]|
    ensures GettersWait(Taken(q, i, j), cons[c := Running], lists, pos[c := pos[c] + 1])
  {
    forall r | NotReady(q, r) ensures NotReady(Taken(q, i, j), r) {
    }
  }

  lemma FollowedGet<T>(lists: seq<seq<Item<T>>>, pos: seq<nat>, got: seq<seq<Item<T>>>, taken: set<Item<T>>, c: nat)
    requires Followed(lists, pos, got, taken) && Apart(lists) && c < |lists| && pos[c] < |lists[c]|
    ensures var r := lists[c][pos[c]];
            Followed(lists, pos[c := pos[c] + 1], got[c := got[c] + [r]], taken + {r})
  {
  }

  /** What is known after the end of a batch, apart from the main invariant. */
  lemma AfterEndBatch<T>(q: Queue<T>)
    requires Shaped(q) && q.items == Sum(Counts(q.slots))
    ensures var q' := EndBatch(q).0;
            && Shaped(q') && q'.number == q.number && q'.active == q.active
            && q'.batchSize == q.batchSize && (q'.items == 0 ==> NothingSet(q'))
  {
    NoItems(q);
  }

  // ------------------------------------------------------------------
  // Any requests: every step keeps the queue in order
  // ------------------------------------------------------------------

  lemma WakeKeeps<T>(cons: seq<Thread>, audience: Audience, number: map<int, nat>, lists: seq<seq<Item<T>>>,
      pos: seq<nat>)
    requires SleepOnData(number, cons, lists, pos)
    ensures |WakeData(cons, audience)| == |cons| && SleepOnData(number, WakeData(cons, audience), lists, pos)
  {
  }

  lemma SleepOnDataGet<T>(number: map<int, nat>, cons: seq<Thread>, lists: seq<seq<Item<T>>>, pos: seq<nat>, c: nat)
    requires SleepOnData(number, cons, lists, pos) && c < |cons| && pos[c] < |lists[c]|
    requires lists[c][pos[c]].part in number
    ensures SleepOnData(number, cons[c := Running], lists, pos[c := pos[c] + 1])
    ensures SleepOnData(number, cons[c := Gone], lists, pos)
    ensures SleepOnData(number, cons[c := Asleep(DataCV(number[lists[c][pos[c]].part]))], lists, pos)
  {
  }

  lemma SlotBatch<T>(q: Queue<T>, src: seq<seq<Item<T>>>, k: seq<nat>, taken: set<Item<T>>, i: nat, j: nat)
    requires Inv(q, src, k, taken) && i < |q.slots| && j < q.batchSize && q.slots[i][j].Some?
    ensures q.slots[i][j].value.id / q.batchSize == q.batch
  {
    hide ReadBalance, Sum, Counts, TakenExactly, Sourced, Genuine;
    SetSlot(q, src, k, taken, i, j);
    BatchOf(q.slots[i][j].value.id, q.batchSize, q.batch);
  }

  lemma SafePush<T>(cfg: Config<T>, lists: seq<seq<Item<T>>>, s: Sys<T>, i: nat)
    requires SafeInv(cfg, lists, s) && Enabled(cfg, lists, s, Push(i))
    ensures SafeInv(cfg, lists, Apply(cfg, lists, s, Push(i)))
  {
    hide InvBase, Shared, ProducersWait, SetCount, WakeData, SleepOnData;
    var val := cfg.src[i][s.k[i]];
    var sec := PushSection(s.q, val);
    ProducersPush(s.prod, s.q.active, s.k, cfg.src, s.q.batchSize, s.q.batch, i);
    if !sec.outcome.Wait? {
      PushFindsFree(s.q, cfg.src, s.k, s.taken, i);
      PushKeeps(s.q, cfg.src, s.k, s.taken, i);
      WakeKeeps(s.cons, sec.signals.data, s.q.number, lists, s.pos);
    }
  }

  lemma SafeDelete<T>(cfg: Config<T>, lists: seq<seq<Item<T>>>, s: Sys<T>, i: nat)
    requires SafeInv(cfg, lists, s) && Enabled(cfg, lists, s, Delete(i))
    ensures SafeInv(cfg, lists, Apply(cfg, lists, s, Delete(i)))
  {
    hide InvBase, Shared, ProducersWait, SetCount, WakeData, BatchFinished, SleepOnData;
    InvFacts(s.q, cfg.src, s.k, s.taken);
    ProducersDelete(s.prod, s.q.active, s.k, cfg.src, s.q.batchSize, s.q.batch, i);
    DeleteKeeps(s.q, cfg.src, s.k, s.taken, i, cfg.ids[i]);
    var q1 := s.q.(active := s.q.active[i := false], activeProducers := s.q.activeProducers - 1);
    ProducersReset(q1, s.prod[i := Gone], s.k, cfg.src);
    SharedOn(s.got, s.taken, q1);
    AfterEndBatch(q1);
    WakeKeeps(s.cons, EndBatch(q1).1.data, s.q.number, lists, s.pos);
  }

  lemma SafeGet<T>(cfg: Config<T>, lists: seq<seq<Item<T>>>, s: Sys<T>, c: nat)
    requires SafeInv(cfg, lists, s) && Enabled(cfg, lists, s, Get(c))
    ensures SafeInv(cfg, lists, Apply(cfg, lists, s, Get(c)))
  {
    hide InvBase, Shared, ProducersWait, SetCount, WakeData, BatchFinished, SleepOnData;
    var r := lists[c][s.pos[c]];
    InvFacts(s.q, cfg.src, s.k, s.taken);
    SleepOnDataGet(s.q.number, s.cons, lists, s.pos, c);
    if GetRuns(cfg, lists, s, c).outcome.Delivered? {
      var i := s.q.number[r.part];
      var j := r.id % s.q.batchSize;
      var v := s.q.slots[i][j].value;
      TakeKeeps(s.q, cfg.src, s.k, s.taken, i, j);
      SlotBatch(s.q, cfg.src, s.k, s.taken, i, j);
      SharedTake(s.got, s.taken, s.q.batchSize, s.q.batch, c, v);
      var q1 := Taken(s.q, i, j);
      TotalOne(s.q.slots, i, j, None);
      SharedOn(s.got[c := s.got[c] + [v]], s.taken + {v}, q1);
      ProducersReset(q1, s.prod, s.k, cfg.src);
      AfterEndBatch(q1);
      WakeKeeps(s.cons[c := Running], EndBatch(q1).1.data, s.q.number, lists, s.pos[c := s.pos[c] + 1]);
    }
  }

  lemma SafeSpurious<T>(cfg: Config<T>, lists: seq<seq<Item<T>>>, s: Sys<T>, a: Action)
    requires SafeInv(cfg, lists, s) && Enabled(cfg, lists, s, a) && Spurious(a)
    ensures SafeInv(cfg, lists, Apply(cfg, lists, s, a))
  {
    hide InvBase, Shared;
  }

  lemma SafeStep<T>(cfg: Config<T>, lists: seq<seq<Item<T>>>, s: Sys<T>, a: Action)
    requires SafeInv(cfg, lists, s) && Enabled(cfg, lists, s, a)
    ensures SafeInv(cfg, lists, Apply(cfg, lists, s, a))
  {
    hide SafeInv, Apply;
    match a
    case Push(i) => SafePush(cfg, lists, s, i);
    case Delete(i) => SafeDelete(cfg, lists, s, i);
    case Get(c) => SafeGet(cfg, lists, s, c);
    case _ => SafeSpurious(cfg, lists, s, a);
  }

  lemma SafeStart<T>(cfg: Config<T>, lists: seq<seq<Item<T>>>)
    requires ValidConfig(cfg) && Addressed(cfg, lists)
    ensures SafeInv(cfg, lists, Start(cfg, lists))
  {
    hide InvBase;
    NewQueueInv(cfg);
    NumberOfMembers(cfg.ids);
  }

  /** Whatever the consumers ask for, in every state of every run: the queue
      keeps its invariant, and what the consumers have got is what has left the
      queue, each item once, with batch numbers that never decrease. */
  lemma {:induction false} SafeRun<T>(cfg: Config<T>, lists: seq<seq<Item<T>>>, ss: seq<Sys<T>>, n: nat)
    requires ValidConfig(cfg) && Addressed(cfg, lists) && Run(cfg, lists, ss) && n < |ss| && ss[0] == Start(cfg, lists)
    ensures SafeInv(cfg, lists, ss[n])
  {
    hide SafeInv, Apply, Start, Addressed;
    if n == 0 {
      SafeStart(cfg, lists);
    } else {
      SafeRun(cfg, lists, ss, n - 1);
      assert Next(cfg, lists, ss[n - 1], ss[n]);
      var a :| Enabled(cfg, lists, ss[n - 1], a) && ss[n] == Apply(cfg, lists, ss[n - 1], a);
      SafeStep(cfg, lists, ss[n - 1], a);
    }
  }

  // ------------------------------------------------------------------
  // Requests that can be asked: every step follows the lists
  // ------------------------------------------------------------------

  lemma GettersSame<T>(q: Queue<T>, q1: Queue<T>, cons: seq<Thread>, lists: seq<seq<Item<T>>>, pos: seq<nat>)
    requires GettersWait(q, cons, lists, pos)
    requires q1.slots == q.slots && q1.batch == q.batch && q1.batchSize == q.batchSize && q1.number == q.number
    ensures GettersWait(q1, cons, lists, pos)
  {
    forall r | NotReady(q, r) ensures NotReady(q1, r) {
    }
  }

  lemma GettersSleep<T>(q: Queue<T>, cons: seq<Thread>, lists: seq<seq<Item<T>>>, pos: seq<nat>, c: nat)
    requires GettersWait(q, cons, lists, pos) && c < |cons| && pos[c] < |lists[c]| && NotReady(q, lists[c][pos[c]])
    ensures forall cv :: GettersWait(q, cons[c := Asleep(cv)], lists, pos)
  {
  }

  lemma PushStep<T>(cfg: Config<T>, lists: seq<seq<Item<T>>>, s: Sys<T>, i: nat)
    requires PassInv(cfg, lists, s) && Enabled(cfg, lists, s, Push(i))
    ensures PassInv(cfg, lists, Apply(cfg, lists, s, Push(i)))
  {
    hide InvBase, Shared, Followed, ProducersWait, GettersWait, WakeData;
    SafeStep(cfg, lists, s, Push(i));
    if !PushSection(s.q, cfg.src[i][s.k[i]]).outcome.Wait? {
      GettersPush(s.q, cfg.src[i][s.k[i]], s.cons, lists, s.pos);
    }
  }

  lemma DeleteStep<T>(cfg: Config<T>, lists: seq<seq<Item<T>>>, s: Sys<T>, i: nat)
    requires PassInv(cfg, lists, s) && Enabled(cfg, lists, s, Delete(i))
    ensures PassInv(cfg, lists, Apply(cfg, lists, s, Delete(i)))
  {
    hide InvBase, Shared, Followed, ProducersWait, GettersWait, WakeData, BatchFinished;
    SafeStep(cfg, lists, s, Delete(i));
    var q1 := s.q.(active := s.q.active[i := false], activeProducers := s.q.activeProducers - 1);
    GettersSame(s.q, q1, s.cons, lists, s.pos);
    GettersEndBatch(q1, s.cons, lists, s.pos);
  }

  lemma GetStep<T>(cfg: Config<T>, lists: seq<seq<Item<T>>>, s: Sys<T>, c: nat)
    requires PassInv(cfg, lists, s) && Askable(cfg, lists) && Enabled(cfg, lists, s, Get(c))
    ensures PassInv(cfg, lists, Apply(cfg, lists, s, Get(c)))
  {
    hide InvBase, Shared, Followed, ProducersWait, GettersWait, WakeData, BatchFinished, NotReady, Apart, FromSource;
    var r := lists[c][s.pos[c]];
    SafeStep(cfg, lists, s, Get(c));
    NextUntaken(lists, s.pos, s.got, s.taken, c);
    GetReturnsIt(s.q, cfg.src, s.k, s.taken, r);
    if NotReady(s.q, r) {
      GettersSleep(s.q, s.cons, lists, s.pos, c);
    } else {
      GetFollows(cfg, lists, s, c, r);
    }
  }

  lemma GetFollows<T>(cfg: Config<T>, lists: seq<seq<Item<T>>>, s: Sys<T>, c: nat, r: Item<T>)
    requires PassInv(cfg, lists, s) && Apart(lists) && Enabled(cfg, lists, s, Get(c)) && r == lists[c][s.pos[c]]
    requires GetRuns(cfg, lists, s, c) == ResumeGet(s.q, r.part, r.id)
    requires ResumeGet(s.q, r.part, r.id).outcome == Delivered(r)
    ensures var s' := Apply(cfg, lists, s, Get(c));
            Followed(lists, s'.pos, s'.got, s'.taken) && GettersWait(s'.q, s'.cons, lists, s'.pos)
  {
    hide InvBase, Shared, Followed, ProducersWait, GettersWait, WakeData, BatchFinished, Apart;
    var i := s.q.number[r.part];
    var j := r.id % s.q.batchSize;
    FollowedGet(lists, s.pos, s.got, s.taken, c);
    GettersTake(s.q, i, j, s.cons, lists, s.pos, c);
    GettersEndBatch(Taken(s.q, i, j), s.cons[c := Running], lists, s.pos[c := s.pos[c] + 1]);
  }

  lemma NextUntaken<T>(lists: seq<seq<Item<T>>>, pos: seq<nat>, got: seq<seq<Item<T>>>, taken: set<Item<T>>, c: nat)
    requires Followed(lists, pos, got, taken) && c < |lists| && pos[c] < |lists[c]|
    ensures lists[c][pos[c]] !in taken
  {
  }

  lemma SpuriousStep<T>(cfg: Config<T>, lists: seq<seq<Item<T>>>, s: Sys<T>, a: Action)
    requires PassInv(cfg, lists, s) && Enabled(cfg, lists, s, a) && Spurious(a)
    ensures PassInv(cfg, lists, Apply(cfg, lists, s, a))
  {
    hide InvBase, Followed, Shared;
  }

  lemma NextKeeps<T>(cfg: Config<T>, lists: seq<seq<Item<T>>>, s: Sys<T>, s': Sys<T>)
    requires PassInv(cfg, lists, s) && Askable(cfg, lists) && Next(cfg, lists, s, s')
    ensures PassInv(cfg, lists, s')
  {
    hide PassInv, Apply, Askable;
    var a :| Enabled(cfg, lists, s, a) && s' == Apply(cfg, lists, s, a);
    match a
    case Push(i) => PushStep(cfg, lists, s, i);
    case Delete(i) => DeleteStep(cfg, lists, s, i);
    case Get(c) => GetStep(cfg, lists, s, c);
    case _ => SpuriousStep(cfg, lists, s, a);
  }

  lemma AskableAddressed<T>(cfg: Config<T>, lists: seq<seq<Item<T>>>)
    requires ValidConfig(cfg) && Askable(cfg, lists)
    ensures Addressed(cfg, lists)
  {
    forall c, x | 0 <= c < |lists| && 0 <= x < |lists[c]| ensures lists[c][x].part in cfg.ids {
      assert FromSource(cfg.src, lists[c][x]);
    }
  }

  /** When every request is for an item that is pushed, and none is asked for
      twice: in every state of every run each Get so far has returned exactly the
      item it named, none has thrown, and every sleeper has a reason to wait. */
  lemma {:induction false} RunInv<T>(cfg: Config<T>, lists: seq<seq<Item<T>>>, ss: seq<Sys<T>>, n: nat)
    requires ValidConfig(cfg) && Askable(cfg, lists) && Run(cfg, lists, ss) && n < |ss| && ss[0] == Start(cfg, lists)
    ensures PassInv(cfg, lists, ss[n])
  {
    hide SafeInv, Next, Askable, NotReady, Addressed;
    if n == 0 {
      AskableAddressed(cfg, lists);
      SafeStart(cfg, lists);
    } else {
      RunInv(cfg, lists, ss, n - 1);
      NextKeeps(cfg, lists, ss[n - 1], ss[n]);
    }
  }
}
