/** Where the producer's loop cuts a stream of rows into chunks, as a function of
    the row sizes: what holds of every such cut, and why no other does better. */
module ChunkSplit {
  import opened Prelude

  /** What the loop finds when it is about to start another chunk. */
  datatype Turn = Go | StopRequested | NoMemory

  datatype Ending = Finished | Stopped | OutOfMemory | RowTooBig(required: nat) | BadColumn

  datatype Cut = Cut(counts: seq<nat>, ending: Ending)

  /** How many of the next rows fit the room left. */
  function Take(sizes: seq<nat>, room: nat): (n: nat)
    ensures n <= |sizes|
    ensures n > 0 <==> sizes != [] && sizes[0] <= room
  {
    if sizes == [] || sizes[0] > room then 0 else 1 + Take(sizes[1..], room - sizes[0])
  }

  /** The loop, from its k-th round on. */
  function Greedy(sizes: seq<nat>, room: nat, supported: bool, turns: nat -> Turn, k: nat): Cut
    decreases |sizes|
  {
    if turns(k) == StopRequested then Cut([], Stopped)
    else if sizes == [] then Cut([], Finished)
    else if turns(k) == NoMemory then Cut([], OutOfMemory)
    else
      var n := Take(sizes, room);
      if n == 0 then Cut([], RowTooBig(sizes[0]))
      else if !supported then Cut([], BadColumn)
      else
        var rest := Greedy(sizes[n..], room, supported, turns, k + 1);
        Cut([n] + rest.counts, rest.ending)
  }

  function Start(counts: seq<nat>, k: nat): nat
    requires k <= |counts|
  {
    Sum(counts[..k])
  }

  // ------------------------------------------------------------------
  // Sums of consecutive rows
  // ------------------------------------------------------------------

  lemma {:induction false} SumSplit(sizes: seq<nat>, n: nat)
    requires n <= |sizes|
    ensures Sum(sizes) == Sum(sizes[..n]) + Sum(sizes[n..])
  {
    if n == 0 {
      assert sizes[0..] == sizes;
    } else {
      SumSplit(sizes[1..], n - 1);
      assert sizes[..n][1..] == sizes[1..][..n - 1] && sizes[n..] == sizes[1..][n - 1..];
    }
  }

  lemma SumOfOneMore(counts: seq<nat>, k: nat)
    requires k < |counts|
    ensures Sum(counts[..k + 1]) == Sum(counts[..k]) + counts[k]
  {
    SumSplit(counts[..k + 1], k);
    assert counts[..k + 1][..k] == counts[..k] && counts[..k + 1][k..] == [counts[k]];
  }

  lemma {:induction false} SumGrows(counts: seq<nat>, k: nat, m: nat)
    requires k <= m <= |counts|
    ensures Sum(counts[..k]) <= Sum(counts[..m])
  {
    SumSplit(counts[..m], k);
    assert counts[..m][..k] == counts[..k];
  }

  /** Take is the longest prefix that fits, and says so exactly. */
  lemma {:induction false} TakeIsLongest(sizes: seq<nat>, room: nat, n: nat)
    requires n <= |sizes|
    ensures Sum(sizes[..n]) <= room <==> n <= Take(sizes, room)
  {
    if n > 0 {
      assert sizes[..n][1..] == sizes[1..][..n - 1];
      if sizes[0] <= room {
        TakeIsLongest(sizes[1..], room - sizes[0], n - 1);
      }
    }
  }

  // ------------------------------------------------------------------
  // Every cut
  // ------------------------------------------------------------------

  /** No chunk is empty, each one fits, and each is as long as it can be. */
  ghost predicate Tight(sizes: seq<nat>, room: nat, counts: seq<nat>) {
    && Sum(counts) <= |sizes|
    && forall k :: 0 <= k < |counts| ==> ChunkTight(sizes, room, counts, k)
  }

  ghost predicate ChunkTight(sizes: seq<nat>, room: nat, counts: seq<nat>, k: nat)
    requires k < |counts| && Sum(counts) <= |sizes|
  {
    var lo := Start(counts, k);
    var hi := Start(counts, k + 1);
    && counts[k] > 0 && lo < hi <= |sizes|
    && Sum(sizes[lo..hi]) <= room
    && (hi < |sizes| ==> Sum(sizes[lo..hi + 1]) > room)
  }

  lemma {:induction false} GreedyTight(sizes: seq<nat>, room: nat, supported: bool, turns: nat -> Turn, k: nat)
    ensures Tight(sizes, room, Greedy(sizes, room, supported, turns, k).counts)
    decreases |sizes|
  {
    var n := Take(sizes, room);
    var counts := Greedy(sizes, room, supported, turns, k).counts;
    if counts != [] {
      var rest := Greedy(sizes[n..], room, supported, turns, k + 1).counts;
      GreedyTight(sizes[n..], room, supported, turns, k + 1);
      SumSplit(counts, 1);
      assert counts[..1] == [n] && counts[1..] == rest;
      forall j | 0 <= j < |counts| ensures ChunkTight(sizes, room, counts, j) {
        SumGrows(counts, j + 1, |counts|);
        assert counts[..|counts|] == counts;
        SumOfOneMore(counts, j);
        if j == 0 {
          TakeIsLongest(sizes, room, n);
          if n < |sizes| {
            TakeIsLongest(sizes, room, n + 1);
          }
          assert counts[..0] == [];
        } else {
          ShiftedTight(sizes, room, rest, n, j - 1);
        }
      }
    }
  }

  lemma ShiftedTight(sizes: seq<nat>, room: nat, rest: seq<nat>, n: nat, j: nat)
    requires 0 < n <= |sizes| && j < |rest| && Sum(rest) <= |sizes| - n
    requires ChunkTight(sizes[n..], room, rest, j)
    requires Sum([n] + rest) <= |sizes|
    ensures ChunkTight(sizes, room, [n] + rest, j + 1)
  {
    hide Sum;
    var counts := [n] + rest;
    StartShifts(rest, n, j);
    StartShifts(rest, n, j + 1);
    var lo, hi := Start(rest, j), Start(rest, j + 1);
    assert sizes[n..][lo..hi] == sizes[n + lo..n + hi];
    if n + hi < |sizes| {
      assert sizes[n..][lo..hi + 1] == sizes[n + lo..n + hi + 1];
    }
  }

  lemma StartShifts(rest: seq<nat>, n: nat, x: nat)
    requires x <= |rest|
    ensures Start([n] + rest, x + 1) == n + Start(rest, x)
  {
    assert ([n] + rest)[..x + 1][1..] == rest[..x];
  }

  /** How the loop ended says which rows are missing, and why: the round after the
      last chunk looks first whether it is to stop, then whether rows are left,
      then whether it gets memory, then whether the next row fits, and then at
      the columns. */
  ghost predicate EndingRight(sizes: seq<nat>, room: nat, supported: bool, turns: nat -> Turn, k: nat, cut: Cut) {
    && Sum(cut.counts) <= |sizes|
    && (forall j :: k <= j < k + |cut.counts| ==> turns(j) == Go)
    && var rest := sizes[Sum(cut.counts)..];
    var turn := turns(k + |cut.counts|);
    match cut.ending
    case Stopped => turn == StopRequested
    case Finished => turn != StopRequested && rest == []
    case OutOfMemory => turn == NoMemory && rest != []
    case RowTooBig(required) => turn == Go && rest != [] && rest[0] == required > room
    case BadColumn => turn == Go && rest != [] && rest[0] <= room && !supported && cut.counts == []
  }

  lemma {:induction false} GreedyEnding(sizes: seq<nat>, room: nat, supported: bool, turns: nat -> Turn, k: nat)
    ensures EndingRight(sizes, room, supported, turns, k, Greedy(sizes, room, supported, turns, k))
    decreases |sizes|
  {
    hide EndingRight, Take;
    var n := Take(sizes, room);
    if turns(k) == Go && n > 0 && supported {
      GreedyEnding(sizes[n..], room, supported, turns, k + 1);
      EndingShifts(sizes, room, supported, turns, k, n, Greedy(sizes[n..], room, supported, turns, k + 1));
    } else {
      EndsAtOnce(sizes, room, supported, turns, k, Greedy(sizes, room, supported, turns, k).ending);
    }
  }

  lemma EndsAtOnce(sizes: seq<nat>, room: nat, supported: bool, turns: nat -> Turn, k: nat, ending: Ending)
    requires Greedy(sizes, room, supported, turns, k) == Cut([], ending)
    ensures EndingRight(sizes, room, supported, turns, k, Cut([], ending))
  {
    hide Take;
    assert sizes[0..] == sizes;
  }

  /** One chunk more in front. */
  lemma EndingShifts(sizes: seq<nat>, room: nat, supported: bool, turns: nat -> Turn, k: nat, n: nat, rest: Cut)
    requires turns(k) == Go && supported && n <= |sizes|
    requires EndingRight(sizes[n..], room, supported, turns, k + 1, rest)
    ensures EndingRight(sizes, room, supported, turns, k, Cut([n] + rest.counts, rest.ending))
  {
    var counts := [n] + rest.counts;
    assert counts[1..] == rest.counts;
    assert sizes[n..][Sum(rest.counts)..] == sizes[Sum(counts)..];
  }

  /** With nothing in its way the loop delivers every row exactly when every row
      fits a chunk of its own and, if there are rows, every column is supported. */
  lemma {:induction false} FinishesExactlyWhen(sizes: seq<nat>, room: nat, supported: bool, turns: nat -> Turn, k: nat)
    requires forall j :: turns(j) == Go
    ensures Greedy(sizes, room, supported, turns, k).ending == Finished
            <==> (forall i :: 0 <= i < |sizes| ==> sizes[i] <= room) && (sizes == [] || supported)
    decreases |sizes|
  {
    var n := Take(sizes, room);
    if n > 0 && supported {
      FinishesExactlyWhen(sizes[n..], room, supported, turns, k + 1);
      forall i | 0 <= i < n ensures sizes[i] <= room {
        TakeIsLongest(sizes, room, i + 1);
        SumSplit(sizes[..i + 1], i);
        assert sizes[..i + 1][i..] == [sizes[i]];
      }
      assert forall i :: n <= i < |sizes| ==> sizes[i] == sizes[n..][i - n];
    }
  }

  // ------------------------------------------------------------------
  // No cut uses fewer chunks
  // ------------------------------------------------------------------

  /** other cuts all of sizes, in order, into chunks that fit; empty chunks are allowed. */
  predicate Fitting(sizes: seq<nat>, room: nat, other: seq<nat>)
    decreases |other|
  {
    if other == [] then sizes == []
    else other[0] <= |sizes| && Sum(sizes[..other[0]]) <= room && Fitting(sizes[other[0]..], room, other[1..])
  }

  /** The loop stays ahead: begun anywhere at or past q, it needs no more
      chunks than any fitting cut begun at q. */
  lemma {:induction false} StaysAhead(sizes: seq<nat>, q: nat, p: nat, room: nat, turns: nat -> Turn, k: nat,
      other: seq<nat>)
    requires q <= p <= |sizes| && Fitting(sizes[q..], room, other)
    ensures |Greedy(sizes[p..], room, true, turns, k).counts| <= |other|
    decreases |other|
  {
    hide Sum, Take, Greedy;
    GreedyStep(sizes[p..], room, turns, k);
    if other != [] {
      var m := other[0];
      var n := Take(sizes[p..], room);
      assert sizes[q..][m..] == sizes[q + m..];
      if q + m <= p {
        StaysAhead(sizes, q + m, p, room, turns, k, other[1..]);
      } else {
        assert sizes[q..][..m] == sizes[q..q + m];
        SumSplit(sizes[q..q + m], p - q);
        assert sizes[q..q + m][p - q..] == sizes[p..][..q + m - p];
        TakeIsLongest(sizes[p..], room, q + m - p);
        assert sizes[p..][n..] == sizes[p + n..];
        StaysAhead(sizes, q + m, p + n, room, turns, k + 1, other[1..]);
      }
    }
  }

  lemma GreedyStep(sizes: seq<nat>, room: nat, turns: nat -> Turn, k: nat)
    ensures var n := Take(sizes, room); var c := Greedy(sizes, room, true, turns, k).counts;
            |c| == 0 || (sizes != [] && |c| == 1 + |Greedy(sizes[n..], room, true, turns, k + 1).counts|)
  {
  }

  /** The number of chunks is the least over all in-order cuts that fit. */
  lemma FewestChunks(sizes: seq<nat>, room: nat, turns: nat -> Turn, other: seq<nat>)
    requires Fitting(sizes, room, other)
    ensures |Greedy(sizes, room, true, turns, 0).counts| <= |other|
  {
    assert sizes[0..] == sizes;
    StaysAhead(sizes, 0, 0, room, turns, 0, other);
  }

  /** ... and the loop's own cut is one of them when it finishes. */
  lemma {:induction false} FinishedFits(sizes: seq<nat>, room: nat, turns: nat -> Turn, k: nat)
    requires Greedy(sizes, room, true, turns, k).ending == Finished
    ensures Fitting(sizes, room, Greedy(sizes, room, true, turns, k).counts)
    decreases |sizes|
  {
    var n := Take(sizes, room);
    var counts := Greedy(sizes, room, true, turns, k).counts;
    if counts != [] {
      FinishedFits(sizes[n..], room, turns, k + 1);
      TakeIsLongest(sizes, room, n);
      assert counts[1..] == Greedy(sizes[n..], room, true, turns, k + 1).counts;
    }
  }

  // ------------------------------------------------------------------
  // The rows themselves
  // ------------------------------------------------------------------

  /** The groups of rows that go into the chunks. */
  function Groups<R>(rows: seq<R>, counts: seq<nat>): (g: seq<seq<R>>)
    requires Sum(counts) <= |rows|
    ensures |g| == |counts|
  {
    if counts == [] then [] else [rows[..counts[0]]] + Groups(rows[counts[0]..], counts[1..])
  }

  function Concat<R>(groups: seq<seq<R>>): seq<R> {
    if groups == [] then [] else groups[0] + Concat(groups[1..])
  }

  /** The chunks' rows, one chunk after the other, are the rows delivered. */
  lemma {:induction false} GroupsConcat<R>(rows: seq<R>, counts: seq<nat>)
    requires Sum(counts) <= |rows|
    ensures Concat(Groups(rows, counts)) == rows[..Sum(counts)]
  {
    if counts != [] {
      var n := counts[0];
      GroupsConcat(rows[n..], counts[1..]);
      assert rows[..Sum(counts)] == rows[..n] + rows[n..][..Sum(counts[1..])];
    }
  }
}
