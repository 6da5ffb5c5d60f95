/** What the systems built on a batch queue share: its producers' threads, the
    work left, and the lists of items that consumers hand around. */
module BatchThreads {
  import opened Prelude
  import opened BatchCore
  import opened Threads

  /** Deleted producers are gone; sleeping ones are ahead of the batch,
      and sleep on the condition variable that its end notifies. */
  ghost predicate ProducersWait<T>(prod: seq<Thread>, active: seq<bool>, k: seq<nat>, src: seq<seq<Item<T>>>,
      size: nat, batch: nat) {
    && size >= 1
    && |prod| == |active| == |k| == |src|
    && (forall i :: 0 <= i < |prod| ==> (prod[i] == Gone <==> !active[i]))
    && (forall i :: 0 <= i < |prod| && prod[i].Asleep? ==>
          prod[i].cv == BusyCV && k[i] < |src[i]| && k[i] / size > batch)
  }

  lemma ProducersPush<T>(prod: seq<Thread>, active: seq<bool>, k: seq<nat>, src: seq<seq<Item<T>>>, size: nat,
      batch: nat, i: nat)
    requires ProducersWait(prod, active, k, src, size, batch) && i < |prod| && CanRun(prod[i])
    ensures ProducersWait(prod[i := Running], active, k[i := k[i] + 1], src, size, batch)
    ensures k[i] < |src[i]| && k[i] / size > batch ==>
            ProducersWait(prod[i := Asleep(BusyCV)], active, k, src, size, batch)
    ensures active[i]
  {
  }

  lemma ProducersDelete<T>(prod: seq<Thread>, active: seq<bool>, k: seq<nat>, src: seq<seq<Item<T>>>, size: nat,
      batch: nat, i: nat)
    requires ProducersWait(prod, active, k, src, size, batch) && i < |prod| && CanRun(prod[i])
    ensures active[i] && ProducersWait(prod[i := Gone], active[i := false], k, src, size, batch)
  {
  }

  lemma ProducersReset<T>(q: Queue<T>, prod: seq<Thread>, k: seq<nat>, src: seq<seq<Item<T>>>)
    requires Shaped(q) && ProducersWait(prod, q.active, k, src, q.batchSize, q.batch)
    ensures var (q', sig) := EndBatch(q);
            ProducersWait(if sig.busyAll then WakeAll(prod, BusyCV) else prod, q'.active, k, src, q'.batchSize,
                q'.batch)
  {
  }

  ghost predicate Received<T>(recvd: seq<seq<Item<T>>>, y: Item<T>) {
    exists c :: 0 <= c < |recvd| && y in recvd[c]
  }

  /** No item occurs twice, in one list or in two. */
  ghost predicate Apart<T>(recvd: seq<seq<Item<T>>>) {
    forall c, x, d, y :: 0 <= c < |recvd| && 0 <= x < |recvd[c]| && 0 <= d < |recvd| && 0 <= y < |recvd[d]|
        && (c != d || x != y)
      ==> recvd[c][x] != recvd[d][y]
  }

  /** The consumers share out what has left the queue, each its own list, and
      batch numbers never decrease along a list. */
  ghost predicate Shared<T>(recvd: seq<seq<Item<T>>>, taken: set<Item<T>>, size: nat, batch: nat) {
    && size >= 1
    && (forall c, x :: 0 <= c < |recvd| && 0 <= x < |recvd[c]| ==> recvd[c][x] in taken)
    && (forall y :: y in taken ==> y.id / size <= batch && Received(recvd, y))
    && Apart(recvd)
    && (forall c, x, y :: 0 <= c < |recvd| && 0 <= x < y < |recvd[c]| ==>
        recvd[c][x].id / size <= recvd[c][y].id / size)
  }

  lemma SharedTake<T>(recvd: seq<seq<Item<T>>>, taken: set<Item<T>>, size: nat, batch: nat, c: nat, f: Item<T>)
    requires Shared(recvd, taken, size, batch) && c < |recvd| && f !in taken && f.id / size == batch
    ensures Shared(recvd[c := recvd[c] + [f]], taken + {f}, size, batch)
  {
    var recvd' := recvd[c := recvd[c] + [f]];
    forall y | y in taken + {f} ensures y.id / size <= batch && Received(recvd', y) {
      if y in taken {
        var d :| 0 <= d < |recvd| && y in recvd[d];
        assert y in recvd'[d];
      } else {
        assert y in recvd'[c];
      }
    }
  }

  lemma SharedOn<T>(recvd: seq<seq<Item<T>>>, taken: set<Item<T>>, q: Queue<T>)
    requires Shaped(q) && Shared(recvd, taken, q.batchSize, q.batch)
    ensures var q' := EndBatch(q).0; Shared(recvd, taken, q'.batchSize, q'.batch)
  {
  }

  lemma SomeActive<T>(q: Queue<T>, src: seq<seq<Item<T>>>, k: seq<nat>, taken: set<Item<T>>) returns (i: nat)
    requires Inv(q, src, k, taken) && q.activeProducers > 0
    ensures i < |q.active| && q.active[i]
  {
    ActiveCount(q.active);
    i :| 0 <= i < |q.active| && q.active[i];
  }

  lemma NonNegative<T>(q: Queue<T>, src: seq<seq<Item<T>>>, k: seq<nat>, taken: set<Item<T>>)
    requires Inv(q, src, k, taken)
    ensures q.items >= 0 && q.activeProducers >= 0
  {
  }

  lemma NoneActive<T>(q: Queue<T>, src: seq<seq<Item<T>>>, k: seq<nat>, taken: set<Item<T>>)
    requires Inv(q, src, k, taken) && q.activeProducers == 0
    ensures forall i :: 0 <= i < |q.active| ==> !q.active[i] && k[i] == |src[i]|
  {
    ActiveCount(q.active);
  }

  ghost function Unpushed<T>(src: seq<seq<Item<T>>>, k: seq<nat>): seq<nat>
    requires |src| == |k| && forall i :: 0 <= i < |k| ==> k[i] <= |src[i]|
  {
    seq(|k|, i requires 0 <= i < |k| => |src[i]| - k[i])
  }

  lemma UnpushedOne<T>(src: seq<seq<Item<T>>>, k: seq<nat>, i: nat)
    requires |src| == |k| && i < |k| && k[i] < |src[i]|
    requires forall a :: 0 <= a < |k| ==> k[a] <= |src[a]|
    ensures Sum(Unpushed(src, k[i := k[i] + 1])) == Sum(Unpushed(src, k)) - 1
  {
    assert Unpushed(src, k[i := k[i] + 1]) == Unpushed(src, k)[i := |src[i]| - k[i] - 1];
    SumUpdate(Unpushed(src, k), i, |src[i]| - k[i] - 1);
  }

  /** The lists hold every item exactly once, and no list goes back a batch. */
  ghost predicate Replay<T>(cfg: Config<T>, lists: seq<seq<Item<T>>>) {
    && cfg.size >= 1
    && (forall c, x :: 0 <= c < |lists| && 0 <= x < |lists[c]| ==> FromSource(cfg.src, lists[c][x]))
    && (forall i, m :: 0 <= i < |cfg.src| && 0 <= m < |cfg.src[i]| ==> Received(lists, cfg.src[i][m]))
    && Apart(lists)
    && (forall c, x, y :: 0 <= c < |lists| && 0 <= x < y < |lists[c]| ==>
        lists[c][x].id / cfg.size <= lists[c][y].id / cfg.size)
  }

  // ------------------------------------------------------------------
  // The items of one producer in a list
  // ------------------------------------------------------------------

  function By<T>(s: seq<Item<T>>, number: map<int, nat>, i: nat): seq<Item<T>> {
    if s == [] then []
    else
      var x := s[|s| - 1];
      By(s[..|s| - 1], number, i) + (if x.part in number && number[x.part] == i then [x] else [])
  }

  lemma {:induction false} ByConcat<T>(a: seq<Item<T>>, b: seq<Item<T>>, number: map<int, nat>, i: nat)
    ensures By(a + b, number, i) == By(a, number, i) + By(b, number, i)
  {
    if b == [] {
      assert a + b == a;
    } else {
      var x := b[|b| - 1];
      assert (a + b)[..|a + b| - 1] == a + b[..|b| - 1];
      ByConcat(a, b[..|b| - 1], number, i);
    }
  }

  lemma ByOne<T>(x: Item<T>, number: map<int, nat>, i: nat)
    ensures By([x], number, i) == if x.part in number && number[x.part] == i then [x] else []
  {
    assert By([x][..0], number, i) == [];
  }

  lemma ByHead<T>(s: seq<Item<T>>, number: map<int, nat>, i: nat)
    requires s != []
    ensures By(s, number, i) ==
            (if s[0].part in number && number[s[0].part] == i then [s[0]] else []) + By(s[1..], number, i)
  {
    assert s == [s[0]] + s[1..];
    ByConcat([s[0]], s[1..], number, i);
    ByOne(s[0], number, i);
  }
}
