/** The threads of a queue and what the condition variables do to them.
    A thread that waits is Asleep on a condition variable until that one is
    notified (or it wakes spuriously); then it is Woken, and runs again once it
    gets the mutex, in any order relative to the other threads. */
module Threads {

  /** The batch queue has an empty, a busy and one data condition variable for
      each producer; the bounded queue has an empty and a full one. */
  datatype CondVar = EmptyCV | BusyCV | FullCV | DataCV(producer: nat)

  datatype Thread = Running | Asleep(cv: CondVar) | Woken | Gone

  predicate CanRun(t: Thread) {
    t == Running || t == Woken
  }

  /** Every sleeper sleeps on cv. */
  predicate SleepOn(ts: seq<Thread>, cv: CondVar) {
    forall i :: 0 <= i < |ts| && ts[i].Asleep? ==> ts[i].cv == cv
  }

  /** `notify_all` on cv. */
  function WakeAll(ts: seq<Thread>, cv: CondVar): (r: seq<Thread>)
    ensures |r| == |ts|
    ensures forall i :: 0 <= i < |ts| ==> r[i] == if ts[i] == Asleep(cv) then Woken else ts[i]
  {
    seq(|ts|, i requires 0 <= i < |ts| => if ts[i] == Asleep(cv) then Woken else ts[i])
  }

  /** `notify_one` on cv with the system's choice w of the thread to wake. */
  function WakeOne(ts: seq<Thread>, w: nat, cv: CondVar): seq<Thread> {
    if w < |ts| && ts[w] == Asleep(cv) then ts[w := Woken] else ts
  }

  /** w is a choice `notify_one` on cv can make: a sleeper there, if there is one. */
  predicate Choice(ts: seq<Thread>, w: nat, cv: CondVar) {
    Asleep(cv) in ts ==> w < |ts| && ts[w] == Asleep(cv)
  }

  lemma ChoiceExists(ts: seq<Thread>, cv: CondVar) returns (w: nat)
    ensures Choice(ts, w, cv)
  {
    if Asleep(cv) in ts {
      w :| 0 <= w < |ts| && ts[w] == Asleep(cv);
    } else {
      w := 0;
    }
  }

  ghost function Number(ts: seq<Thread>, t: Thread): nat {
    multiset(ts)[t]
  }

  /** Changing one thread's state moves one unit between two counts. */
  lemma NumberOne(ts: seq<Thread>, i: nat, t: Thread, u: Thread)
    requires i < |ts|
    ensures Number(ts[i := t], u) == Number(ts, u) - (if ts[i] == u then 1 else 0) + (if t == u then 1 else 0)
  {
    assert multiset(ts[i := t]) == multiset(ts) - multiset{ts[i]} + multiset{t};
    assert ts[i] in multiset(ts);
  }

  lemma NumberZero(ts: seq<Thread>, t: Thread)
    ensures Number(ts, t) == 0 <==> t !in ts
    ensures Number(ts, t) <= |ts|
  {
    assert t in multiset(ts) <==> t in ts;
    assert multiset(ts)[t] <= |multiset(ts)|;
  }

  lemma {:induction false} NumberAll(ts: seq<Thread>, t: Thread)
    requires forall i :: 0 <= i < |ts| ==> ts[i] == t
    ensures Number(ts, t) == |ts|
  {
    if ts != [] {
      assert ts == [ts[0]] + ts[1..];
      NumberAll(ts[1..], t);
    }
  }

  /** Threads come and go the same way: as many are gone. */
  lemma {:induction false} SameGone(a: seq<Thread>, b: seq<Thread>)
    requires |a| == |b| && forall i :: 0 <= i < |a| ==> (a[i] == Gone <==> b[i] == Gone)
    ensures Present(a) == Present(b)
  {
    if a != [] {
      assert a == [a[0]] + a[1..] && b == [b[0]] + b[1..];
      SameGone(a[1..], b[1..]);
    }
  }

  lemma WakeAllPresent(ts: seq<Thread>, cv: CondVar)
    ensures Present(WakeAll(ts, cv)) == Present(ts)
  {
    SameGone(WakeAll(ts, cv), ts);
  }

  lemma WakeAllMembers(ts: seq<Thread>, cv: CondVar)
    ensures Asleep(cv) !in WakeAll(ts, cv)
    ensures Gone in WakeAll(ts, cv) <==> Gone in ts
  {
    if Gone in ts {
      var i :| 0 <= i < |ts| && ts[i] == Gone;
      assert WakeAll(ts, cv)[i] == Gone;
    }
  }

  ghost function Sleeping(ts: seq<Thread>): seq<bool> {
    seq(|ts|, i requires 0 <= i < |ts| => ts[i].Asleep?)
  }

  /** How many threads are not asleep, on whatever condition variable. */
  ghost function Awake(ts: seq<Thread>): nat {
    multiset(Sleeping(ts))[false]
  }

  lemma AwakeOne(ts: seq<Thread>, i: nat, t: Thread)
    requires i < |ts|
    ensures Awake(ts[i := t]) == Awake(ts) - (if ts[i].Asleep? then 0 else 1) + (if t.Asleep? then 0 else 1)
  {
    assert Sleeping(ts[i := t]) == Sleeping(ts)[i := t.Asleep?];
    assert multiset(Sleeping(ts)[i := t.Asleep?]) ==
        multiset(Sleeping(ts)) - multiset{ts[i].Asleep?} + multiset{t.Asleep?};
    assert Sleeping(ts)[i] in multiset(Sleeping(ts));
  }

  ghost function Present(ts: seq<Thread>): nat {
    |ts| - Number(ts, Gone)
  }

  lemma MeasureDrop(w: int, w': nat, n: nat, a: nat, a': nat)
    requires w' < w || (w' == w && a' < a)
    requires a' <= n
    ensures 0 <= w' * (n + 1) + a' < w * (n + 1) + a
  {
    if w' < w {
      assert w' * (n + 1) <= (w - 1) * (n + 1);
    }
  }

  lemma AwakeBound(ts: seq<Thread>)
    ensures 0 <= Awake(ts) <= |ts| && 0 <= Present(ts) <= |ts|
  {
    assert multiset(Sleeping(ts))[false] <= |multiset(Sleeping(ts))|;
    NumberZero(ts, Gone);
  }
}
