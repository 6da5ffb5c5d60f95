/** What a consumer is told when its queue has no more chunks. */
module ChunkQueues {
  import opened Prelude
  import Routing
  import opened ChunkSplit
  import opened Chunking
  import opened PartitionReader
  import opened Delivery
  import opened Records

  datatype S2ClientError = S2ClientError(code: int, message: string)

  const READER_FAILED := 5

  /** The text is the heading and then, cut at the positions at, one line for each
      reader that failed, in order, and nothing for the others. */
  ghost predicate Lists(text: string, heading: string, errors: seq<S2ClientError>, at: seq<nat>) {
    && |at| == |errors| + 1
    && at[0] <= |text| && text[..at[0]] == heading
    && at[|errors|] == |text|
    && forall i :: 0 <= i < |errors| ==> Tells(text, at[i], at[i + 1], errors[i])
  }

  /** Between these positions the text is the reader's line, if it failed. */
  ghost predicate Tells(text: string, lo: nat, hi: nat, e: S2ClientError) {
    lo <= hi <= |text| && text[lo..hi] == if e.code != 0 then " - " + e.message + "\n" else ""
  }

  lemma TellsOn(text: string, more: string, lo: nat, hi: nat, e: S2ClientError)
    requires Tells(text, lo, hi, e)
    ensures Tells(text + more, lo, hi, e)
  {
    assert (text + more)[lo..hi] == text[lo..hi];
  }

  lemma {:induction false} ReportLists(heading: string, errors: seq<S2ClientError>) returns (at: seq<nat>)
    ensures Lists(heading + Report(errors), heading, errors, at)
  {
    hide Tells;
    if errors == [] {
      at := [|heading|];
    } else {
      var n := |errors| - 1;
      var earlier := ReportLists(heading, errors[..n]);
      var before := heading + Report(errors[..n]);
      var line := if errors[n].code != 0 then " - " + errors[n].message + "\n" else "";
      var text := before + line;
      assert Report(errors) == Report(errors[..n]) + line;
      assert heading + Report(errors) == text;
      at := earlier + [|text|];
      forall i | 0 <= i < |errors| ensures Tells(text, at[i], at[i + 1], errors[i]) {
        if i < n {
          TellsOn(before, line, at[i], at[i + 1], errors[..n][i]);
        } else {
          LineTold(before, line, errors[n]);
        }
      }
      assert text[..at[0]] == before[..at[0]];
    }
  }

  lemma LineTold(before: string, line: string, e: S2ClientError)
    requires line == if e.code != 0 then " - " + e.message + "\n" else ""
    ensures Tells(before + line, |before|, |before + line|, e)
  {
    assert (before + line)[|before|..] == line;
  }

  /** The lines of the report, one for each reader that failed. */
  function Report(errors: seq<S2ClientError>): string {
    if errors == [] then ""
    else
      var e := errors[|errors| - 1];
      Report(errors[..|errors| - 1]) + (if e.code != 0 then " - " + e.message + "\n" else "")
  }

  predicate SomeFailed(errors: seq<S2ClientError>) {
    exists i :: 0 <= i < |errors| && errors[i].code != 0
  }

  class ChunkQueue {
    var m_error: S2ClientError

    /** popped is what Pop returned, or None when it threw; errors are the
        readers' errors.  A chunk comes without an error; when there is none, the
        error names every reader that failed and is kept as the queue's own, and
        is clear if no reader did. */
    method Get<C>(popped: Option<C>, errors: seq<S2ClientError>) returns (chunk: Option<C>, err: S2ClientError)
      modifies `m_error
      ensures chunk == popped
      ensures popped.Some? || !SomeFailed(errors) ==> err == S2ClientError(0, "") && m_error == old(m_error)
      ensures popped.None? && SomeFailed(errors) ==>
                && err.code == 5 && m_error == err
                && exists at :: Lists(err.message, "Some readers failed:\n", errors, at)
    {
      err := S2ClientError(0, "");
      if popped.Some? {
        return popped, err;
      }
      var i := 0;
      while i < |errors|
        invariant 0 <= i <= |errors| && m_error == old(m_error)
        invariant err == S2ClientError(if SomeFailed(errors[..i]) then READER_FAILED else 0, Report(errors[..i]))
      {
        assert errors[..i + 1][..i] == errors[..i];
        if errors[i].code != 0 {
          assert errors[..i + 1][i].code != 0;
          err := S2ClientError(READER_FAILED, err.message + (" - " + errors[i].message + "\n"));
        }
        i := i + 1;
      }
      assert errors[..i] == errors;
      NothingToReport(errors);
      if err.code != 0 {
        ghost var at := ReportLists("Some readers failed:\n", errors);
        err := S2ClientError(err.code, "Some readers failed:\n" + err.message);
        m_error := err;
      }
      return None, err;
    }
  }

  lemma {:induction false} NothingToReport(errors: seq<S2ClientError>)
    ensures SomeFailed(errors) || Report(errors) == ""
  {
    if errors != [] {
      var n := |errors| - 1;
      NothingToReport(errors[..n]);
      assert SomeFailed(errors[..n]) || errors[n].code != 0 ==> SomeFailed(errors);
    }
  }

  /** Unless it was asked to stop, a reader has an error exactly when it did not
      deliver its whole partition. */
  lemma ErrorExactlyWhenShort(plan: Plan, p: nat)
    requires ValidPlan(plan) && p < |plan.tables| && forall k :: plan.turns[p](k) != StopRequested
    ensures ErrorOf(CutOf(plan, p).ending, plan.room) == None
            <==> plan.tables[p][..Sum(CutOf(plan, p).counts)] == plan.tables[p]
  {
    hide Greedy, Sum, Supported, RowSize;
    GreedyEnding(Sizes(plan.schema, plan.tables[p]), plan.room, Supported(plan.schema), plan.turns[p], 0);
  }

  /** The partitions of worker w, whose readers a queue of this worker asks. */
  ghost function WorkersPartitions(plan: Plan, w: nat): (ids: seq<int>)
    requires ValidPlan(plan) && w < plan.workers
    ensures forall i :: 0 <= i < |ids| ==> 0 <= ids[i] < |plan.tables| && ids[i] % plan.workers == w
  {
    var ids := Routing.Stride(w, plan.workers, |plan.tables|);
    assert forall i :: 0 <= i < |ids| ==> 0 <= ids[i] < |plan.tables| && ids[i] % plan.workers == w by {
      forall i | 0 <= i < |ids| ensures 0 <= ids[i] < |plan.tables| && ids[i] % plan.workers == w {
        Routing.StrideIndex(w, plan.workers, |plan.tables|, i);
      }
    }
    ids
  }

  /** A worker's queues have all ended and nobody stopped its readers: then the
      answer "no chunk, no error" means that every row of every one of its
      partitions has arrived, and an error that some has not. */
  lemma CleanEndMeansAll(plan: Plan, w: nat, threads: nat, runs: seq<QueueRun>, errors: seq<S2ClientError>)
    requires ValidPlan(plan) && w < plan.workers && |runs| == plan.consumers
    requires forall c :: 0 <= c < plan.consumers ==> CompleteRun(plan, w, c, threads, runs[c])
    requires |errors| == |WorkersPartitions(plan, w)|
    requires forall i :: 0 <= i < |errors| ==>
               var p := WorkersPartitions(plan, w)[i];
               && (forall k :: plan.turns[p](k) != StopRequested)
               && (errors[i].code != 0 <==> ErrorOf(CutOf(plan, p).ending, plan.room).Some?)
    ensures !SomeFailed(errors) <==>
            forall i :: 0 <= i < |errors| ==>
              var p := WorkersPartitions(plan, w)[i];
              RowsIn(OfPart(runs[(p / plan.workers) % plan.consumers].Out(), p)) == plan.tables[p]
  {
    hide CutOf, RowsIn, OfPart, ChunksOf, ErrorOf, WorkersPartitions, Sum, CompleteRun;
    var ids := WorkersPartitions(plan, w);
    forall i | 0 <= i < |errors|
      ensures errors[i].code == 0 <==>
              RowsIn(OfPart(runs[(ids[i] / plan.workers) % plan.consumers].Out(), ids[i])) == plan.tables[ids[i]]
    {
      var p := ids[i];
      RunDelivers(plan, w, (p / plan.workers) % plan.consumers, threads, runs[(p / plan.workers) % plan.consumers]);
      ErrorExactlyWhenShort(plan, p);
      ChunksHoldTable(plan, p);
    }
  }
}
