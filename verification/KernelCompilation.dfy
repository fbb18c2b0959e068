// Compilation of kernel variants in jobs: how many jobs, which variants each of
// them gets, the bounded fail-fast dispatch, and the report over all of them.
//
// Which jobs finish first is arbitrary. A run is recorded as the sequence of its
// submissions and observed completions.

module KernelCompilation {
  import opened Outcomes
  import opened Arithmetic
  import Sequences
  import Sorting

  datatype Variant = Variant(id: string, options: string)

  datatype Row = Row(id: string, status: string, diagnostics: string)

  datatype Report = Report(rows: seq<Row>, jobFailed: bool, notSubmitted: bool)

  datatype Outcome = Outcome(callId: Option<string>, report: Report)

  /** What a job does: it cannot be spawned, its call fails, or it answers something. */
  datatype Job =
    | SpawnRaises(raised: Option<string>)
    | WaitRaises(callId: string)
    | Answers(callId: string, rows: Option<seq<Row>>, jobFailed: bool)

  function Ids(variants: seq<Variant>): set<string> { set v | v in variants :: v.id }

  function RowIds(rows: seq<Row>): set<string> { set r | r in rows :: r.id }

  // ------------------------------------------------------------------- one job

  /** Whether the rows of an answer are those of the variants. */
  predicate CompleteRows(rows: Option<seq<Row>>, chunk: seq<Variant>) {
    && rows.Some? && |rows.value| == |chunk| && RowIds(rows.value) == Ids(chunk)
    && forall r :: r in rows.value ==> r.status in {"compiled", "failed"}
  }

  function FailedRows(chunk: seq<Variant>, diagnostics: string): (rows: seq<Row>)
    ensures RowIds(rows) == Ids(chunk) && AllFailed(rows, chunk)
    ensures forall r :: r in rows ==> r.status == "failed"
  {
    var rows := seq(|chunk|, k requires 0 <= k < |chunk| => Row(chunk[k].id, "failed", diagnostics));
    assert RowIds(rows) == Ids(chunk) by {
      forall v | v in chunk ensures v.id in RowIds(rows) {
        var k :| 0 <= k < |chunk| && chunk[k] == v;
        assert rows[k].id == v.id;
      }
    }
    rows
  }

  ghost predicate HasRow(rows: seq<Row>, v: Variant) { exists r :: r in rows && r.id == v.id }

  ghost predicate HasVariant(chunk: seq<Variant>, id: string) { exists v :: v in chunk && v.id == id }

  /** An answer has one row for each variant, every row is of one of them, and says that it compiled or failed. */
  ghost predicate AnswersAll(rows: seq<Row>, chunk: seq<Variant>) {
    && |rows| == |chunk|
    && (forall v :: v in chunk ==> HasRow(rows, v))
    && forall r :: r in rows ==> HasVariant(chunk, r.id) && (r.status == "compiled" || r.status == "failed")
  }

  lemma RowIdsMeaning(rows: seq<Row>, chunk: seq<Variant>)
    ensures RowIds(rows) == Ids(chunk) <==>
      (forall v :: v in chunk ==> HasRow(rows, v)) && forall r :: r in rows ==> HasVariant(chunk, r.id)
  {
    forall v: Variant ensures v.id in RowIds(rows) <==> HasRow(rows, v) {
    }
    forall id ensures id in Ids(chunk) <==> HasVariant(chunk, id) {
    }
    if RowIds(rows) == Ids(chunk) {
      forall v | v in chunk ensures HasRow(rows, v) {
        assert v.id in Ids(chunk);
      }
      forall r | r in rows ensures HasVariant(chunk, r.id) {
        assert r.id in RowIds(rows);
      }
    }
  }

  lemma CompleteRowsMeaning(rows: Option<seq<Row>>, chunk: seq<Variant>)
    ensures CompleteRows(rows, chunk) <==> rows.Some? && AnswersAll(rows.value, chunk)
  {
    if rows.Some? {
      RowIdsMeaning(rows.value, chunk);
    }
  }

  /**
   What a batch records of a job: a complete answer as it is; otherwise a failure of every
   variant in order, which stops the batch. The call is named whenever there was one.
   */
  lemma SettleMeaning(chunk: seq<Variant>, job: Job)
    ensures var o := Settle(chunk, job);
      && !o.report.notSubmitted
      && o.callId == (match job
                      case SpawnRaises(raised) => raised
                      case WaitRaises(callId) => Some(callId)
                      case Answers(callId, _, _) => Some(callId))
      && if job.Answers? && job.rows.Some? && AnswersAll(job.rows.value, chunk)
         then o.report.rows == job.rows.value && o.report.jobFailed == job.jobFailed
         else o.report.jobFailed && AllFailed(o.report.rows, chunk)
  {
    if job.Answers? {
      CompleteRowsMeaning(job.rows, chunk);
    }
  }

  /** Every variant failed, in order. */
  ghost predicate AllFailed(rows: seq<Row>, chunk: seq<Variant>) {
    |rows| == |chunk| && forall k :: 0 <= k < |rows| ==> rows[k].id == chunk[k].id && rows[k].status == "failed"
  }

  /** A single job is believed exactly if its answer is complete, or its call failed; otherwise its error propagates. */
  lemma SubmitMeaning(chunk: seq<Variant>, job: Job)
    ensures SubmitShard(chunk, job).Success? <==>
      job.WaitRaises? || (job.Answers? && job.rows.Some? && AnswersAll(job.rows.value, chunk))
    ensures match SubmitShard(chunk, job)
      case Success(o) => o == Settle(chunk, job)
      case Failure(callId) => callId == Settle(chunk, job).callId
  {
    if job.Answers? {
      CompleteRowsMeaning(job.rows, chunk);
    }
  }

  lemma NotSubmittedMeaning(chunk: seq<Variant>)
    ensures var o := NotSubmitted(chunk);
      o.callId.None? && o.report.notSubmitted && !o.report.jobFailed && AllFailed(o.report.rows, chunk)
  {
  }

  /** The outcome of a submitted job, or the exception it raises. */
  function SubmitShard(chunk: seq<Variant>, job: Job): Result<Outcome, Option<string>> {
    match job
    case SpawnRaises(raised) => Failure(raised)
    case WaitRaises(callId) =>
      Success(Outcome(Some(callId), Report(FailedRows(chunk, "Compiler job failed"), true, false)))
    case Answers(callId, rows, jobFailed) =>
      if CompleteRows(rows, chunk) then Success(Outcome(Some(callId), Report(rows.value, jobFailed, false)))
      else Failure(Some(callId))
  }

  /** What a batch records for a job. */
  function Settle(chunk: seq<Variant>, job: Job): (o: Outcome)
    ensures |o.report.rows| == |chunk| && RowIds(o.report.rows) == Ids(chunk)
    ensures forall r :: r in o.report.rows ==> r.status in {"compiled", "failed"}
    ensures !o.report.jobFailed ==> job.Answers? && CompleteRows(job.rows, chunk) && o.report.rows == job.rows.value
  {
    var submitted := SubmitShard(chunk, job);
    if submitted.Success? then submitted.value
    else Outcome(submitted.error, Report(FailedRows(chunk, "Compiler job could not complete"), true, false))
  }

  function NotSubmitted(chunk: seq<Variant>): Outcome {
    Outcome(None, Report(FailedRows(chunk, "Not submitted after another compiler job failed"), false, true))
  }

  // ------------------------------------------------------------------ job count

  datatype Limits = Limits(variantsPerJob: Option<nat>, maxConcurrentJobs: nat) {
    predicate Valid() {
      && (variantsPerJob.Some? ==> variantsPerJob.value >= 1)
      && 1 <= maxConcurrentJobs <= 32
    }
    function Largest(): nat { if variantsPerJob.Some? then variantsPerJob.value else 256 }
  }

  function JobCount(variants: nat, limits: Limits): nat
    requires limits.Valid()
  {
    if limits.variantsPerJob.Some? then CeilDiv(variants, limits.variantsPerJob.value)
    else
      var few, window := CeilDiv(variants, 256), CeilDiv(variants, 128);
      var filled := if window <= limits.maxConcurrentJobs then window else limits.maxConcurrentJobs;
      if few >= filled then few else filled
  }

  /** Enough jobs that none gets more than the limit, and no more jobs than variants. */
  lemma JobCountMeaning(variants: nat, limits: Limits)
    requires limits.Valid()
    ensures variants <= JobCount(variants, limits) * limits.Largest()
    ensures JobCount(variants, limits) <= variants
    ensures JobCount(variants, limits) == 0 <==> variants == 0
  {
    var most := limits.Largest();
    CeilDivHolds(variants, most, JobCount(variants, limits));
    CeilDivAtMost(variants, most);
    CeilDivAtMost(variants, 128);
  }

  /** Whether so many jobs are enough: none too large, and no more than 128 variants each until the window is full. */
  predicate Enough(n: nat, variants: nat, limits: Limits) {
    && variants <= n * limits.Largest()
    && (limits.variantsPerJob.None? ==> n >= limits.maxConcurrentJobs || variants <= n * 128)
  }

  /** The number of jobs is the least that is enough. */
  lemma JobCountLeast(variants: nat, limits: Limits, n: nat)
    requires limits.Valid()
    ensures Enough(JobCount(variants, limits), variants, limits)
    ensures Enough(n, variants, limits) ==> JobCount(variants, limits) <= n
  {
    var count := JobCount(variants, limits);
    JobCountMeaning(variants, limits);
    CeilDivMeaning(variants, limits.Largest());
    CeilDivMeaning(variants, 128);
    if limits.variantsPerJob.None? && count < limits.maxConcurrentJobs {
      CeilDivHolds(variants, 128, count);
    }
  }

  // --------------------------------------------------------------------- chunks

  /** s[i::n] */
  function Strided<T>(s: seq<T>, i: nat, n: nat): seq<T>
    requires n >= 1
    decreases |s| - i
  {
    if i >= |s| then [] else [s[i]] + Strided(s, i + n, n)
  }

  lemma {:induction false} StridedLength<T>(s: seq<T>, i: nat, n: nat)
    requires n >= 1
    ensures i < |s| ==> Strided(s, i, n) != [] && (|Strided(s, i, n)| - 1) * n < |s| - i
    decreases |s| - i
  {
    if i < |s| {
      StridedLength(s, i + n, n);
      var rest := Strided(s, i + n, n);
      assert |Strided(s, i, n)| - 1 == |rest|;
      if rest != [] {
        Distribute(|rest| - 1, 1, n);
      }
    }
  }

  /** Chunk i of n holds the elements at the positions congruent to i, and only those. */
  lemma {:induction false} StridedHolds<T>(s: seq<T>, i: nat, n: nat, k: nat)
    requires n >= 1 && i + k * n < |s|
    ensures k < |Strided(s, i, n)| && Strided(s, i, n)[k] == s[i + k * n]
    decreases k
  {
    if k > 0 {
      Distribute(k - 1, 1, n);
      StridedHolds(s, i + n, n, k - 1);
    }
  }

  lemma {:induction false} StridedOrigin<T>(s: seq<T>, i: nat, n: nat, k: nat)
    requires n >= 1 && k < |Strided(s, i, n)|
    ensures i + k * n < |s| && Strided(s, i, n)[k] == s[i + k * n]
    decreases k
  {
    if k > 0 {
      Distribute(k - 1, 1, n);
      StridedOrigin(s, i + n, n, k - 1);
    }
  }

  function Chunks(ordered: seq<Variant>, n: nat): (chunks: seq<seq<Variant>>)
    requires n >= 1
    ensures |chunks| == n
    ensures forall i :: 0 <= i < n ==> chunks[i] == Strided(ordered, i, n)
  {
    seq(n, i requires 0 <= i < n => Strided(ordered, i, n))
  }

  /** The chunks are not empty and within the limit. */
  lemma ChunksBounded(ordered: seq<Variant>, limits: Limits, i: nat)
    requires limits.Valid() && ordered != [] && i < JobCount(|ordered|, limits)
    ensures 1 <= |Strided(ordered, i, JobCount(|ordered|, limits))| <= limits.Largest()
  {
    var n, most := JobCount(|ordered|, limits), limits.Largest();
    JobCountMeaning(|ordered|, limits);
    StridedLength(ordered, i, n);
    var size := |Strided(ordered, i, n)|;
    assert n * most == most * n;
    Monotone(most, size - 1, n);
  }

  /** Every element of the ordered list is in a chunk. */
  lemma ChunkOf(ordered: seq<Variant>, n: nat, j: nat)
    requires n >= 1 && j < |ordered|
    ensures ordered[j] in Strided(ordered, j % n, n)
  {
    assert j == (j / n) * n + j % n;
    StridedHolds(ordered, j % n, n, j / n);
    assert Strided(ordered, j % n, n)[j / n] in Strided(ordered, j % n, n);
  }

  ghost predicate DistinctIds(variants: seq<Variant>) {
    forall i, j :: 0 <= i < j < |variants| ==> variants[i].id != variants[j].id
  }

  /** No id is in two chunks. */
  lemma ChunksDisjoint(ordered: seq<Variant>, n: nat, i: nat, k: nat, i': nat, k': nat)
    requires DistinctIds(ordered) && i < n && i' < n
    requires k < |Strided(ordered, i, n)| && k' < |Strided(ordered, i', n)|
    requires Strided(ordered, i, n)[k].id == Strided(ordered, i', n)[k'].id
    ensures i == i'
  {
    StridedOrigin(ordered, i, n, k);
    StridedOrigin(ordered, i', n, k');
    DivideOf(k, n, i);
    DivideOf(k', n, i');
  }

  // ---------------------------------------------------------------------- order

  const ById: Variant -> string := (v: Variant) => v.id

  /** The variants in the order of their ids. */
  function SortById(variants: seq<Variant>): (r: seq<Variant>)
    ensures multiset(r) == multiset(variants) && |r| == |variants|
  {
    Sorting.SortBy(Sorting.ByText(ById), variants)
  }

  // ------------------------------------------------------------------- dispatch

  datatype Event = Submitted(job: nat) | Waited | Observed(job: nat)

  function Submits(trace: seq<Event>): nat {
    if trace == [] then 0
    else Submits(trace[..|trace| - 1]) + if trace[|trace| - 1].Submitted? then 1 else 0
  }

  function Finished(trace: seq<Event>): set<nat> {
    if trace == [] then {}
    else Finished(trace[..|trace| - 1]) + if trace[|trace| - 1].Observed? then {trace[|trace| - 1].job} else {}
  }

  /**
   Jobs are submitted in order, never more than `limit` are outstanding, none
   after a failed one was observed, and each is observed once.
   */
  ghost predicate Lawful(trace: seq<Event>, limit: nat, failed: set<nat>) {
    trace != [] ==>
      var init, last := trace[..|trace| - 1], trace[|trace| - 1];
      && Lawful(init, limit, failed)
      && match last
         case Submitted(job) =>
           job == Submits(init) && Submits(init) - |Finished(init)| < limit && Finished(init) !! failed
         case Waited => true
         case Observed(job) => job < Submits(init) && job !in Finished(init)
  }

  /** Nothing is waited for while another of the jobs could be submitted. */
  ghost predicate Eager(trace: seq<Event>, limit: nat, jobs: nat, failed: set<nat>) {
    trace != [] ==>
      var init, last := trace[..|trace| - 1], trace[|trace| - 1];
      Eager(init, limit, jobs, failed) && (last.Waited? ==> MayWait(init, limit, jobs, failed))
  }

  /** Something is outstanding; and the window is full, every job was submitted, or a failed one was observed. */
  ghost predicate MayWait(trace: seq<Event>, limit: nat, jobs: nat, failed: set<nat>) {
    var outstanding := Submits(trace) - |Finished(trace)|;
    outstanding > 0 && (outstanding == limit || Submits(trace) == jobs || !(Finished(trace) !! failed))
  }

  lemma EagerNext(trace: seq<Event>, e: Event, limit: nat, jobs: nat, failed: set<nat>)
    requires Eager(trace, limit, jobs, failed) && (e.Waited? ==> MayWait(trace, limit, jobs, failed))
    ensures Eager(trace + [e], limit, jobs, failed)
  {
    assert (trace + [e])[..|trace|] == trace;
  }

  /** Every wait of a run is such a one. */
  lemma {:induction false} WaitsWhenFull(trace: seq<Event>, limit: nat, jobs: nat, failed: set<nat>, k: nat)
    requires Eager(trace, limit, jobs, failed) && k < |trace| && trace[k].Waited?
    ensures MayWait(trace[..k], limit, jobs, failed)
  {
    var init := trace[..|trace| - 1];
    if k < |init| {
      WaitsWhenFull(init, limit, jobs, failed, k);
      assert init[..k] == trace[..k];
    } else {
      assert trace[..k] == init;
    }
  }

  lemma LawfulNext(trace: seq<Event>, e: Event, limit: nat, failed: set<nat>)
    requires Lawful(trace, limit, failed)
    requires match e
      case Submitted(job) =>
        job == Submits(trace) && Submits(trace) - |Finished(trace)| < limit && Finished(trace) !! failed
      case Waited => true
      case Observed(job) => job < Submits(trace) && job !in Finished(trace)
    ensures Lawful(trace + [e], limit, failed)
    ensures Submits(trace + [e]) == Submits(trace) + if e.Submitted? then 1 else 0
    ensures Finished(trace + [e]) == Finished(trace) + if e.Observed? then {e.job} else {}
  {
    assert (trace + [e])[..|trace|] == trace;
  }

  /** At every moment of a lawful run the outstanding jobs are within the limit. */
  lemma {:induction false} Bounded(trace: seq<Event>, limit: nat, failed: set<nat>, k: nat)
    requires Lawful(trace, limit, failed) && k <= |trace|
    ensures Lawful(trace[..k], limit, failed)
    ensures 0 <= Submits(trace[..k]) - |Finished(trace[..k])| <= limit
    ensures Finished(trace[..k]) <= Sequences.Indices(Submits(trace[..k]))
  {
    if k < |trace| {
      var init := trace[..|trace| - 1];
      Bounded(init, limit, failed, k);
      assert init[..k] == trace[..k];
    } else {
      assert trace[..k] == trace;
      if trace != [] {
        var init := trace[..|trace| - 1];
        Bounded(init, limit, failed, |init|);
        assert init[..|init|] == init;
      }
      assert Finished(trace) <= Sequences.Indices(Submits(trace));
      Sequences.SubsetSize(Finished(trace), Sequences.Indices(Submits(trace)));
    }
  }

  /** Nothing is submitted once a failed job was observed. */
  lemma {:induction false} FailFast(trace: seq<Event>, limit: nat, failed: set<nat>, a: nat, b: nat)
    requires Lawful(trace, limit, failed) && a < b < |trace| && trace[a].Observed? && trace[a].job in failed
    ensures !trace[b].Submitted?
  {
    var init := trace[..|trace| - 1];
    if b < |init| {
      FailFast(init, limit, failed, a, b);
    } else {
      ObservedIsFinished(init, a);
    }
  }

  lemma {:induction false} ObservedIsFinished(trace: seq<Event>, a: nat)
    requires a < |trace| && trace[a].Observed?
    ensures trace[a].job in Finished(trace)
  {
    if a < |trace| - 1 {
      ObservedIsFinished(trace[..|trace| - 1], a);
    }
  }

  ghost function FailedJobs(results: seq<Outcome>): (failed: set<nat>)
    ensures forall i: nat :: i in failed <==> i < |results| && results[i].report.jobFailed
  {
    set i: nat | i < |results| && results[i].report.jobFailed
  }

  /** What a run says about the variables of the dispatch loop. */
  ghost predicate Tracks(trace: seq<Event>, limit: nat, jobs: nat, failed: set<nat>, next: nat, done: set<nat>) {
    && Lawful(trace, limit, failed) && Eager(trace, limit, jobs, failed)
    && Submits(trace) == next && Finished(trace) == done
  }

  /** The jobs that were submitted and not yet observed. */
  ghost predicate Outstanding(pending: set<nat>, next: nat, done: set<nat>) {
    && (forall i: nat :: i in pending <==> i < next && i !in done)
    && forall i: nat :: i in done ==> i < next
  }

  lemma OutstandingSize(pending: set<nat>, next: nat, done: set<nat>)
    requires Outstanding(pending, next, done)
    ensures |pending| + |done| == next
  {
    assert pending + done == Sequences.Indices(next);
    assert pending !! done;
    assert |pending + done| == |pending| + |done|;
  }

  lemma TracksSubmit(trace: seq<Event>, limit: nat, jobs: nat, failed: set<nat>, next: nat, pending: set<nat>,
                     done: set<nat>)
    requires Tracks(trace, limit, jobs, failed, next, done) && Outstanding(pending, next, done)
    requires |pending| < limit && done !! failed
    ensures Tracks(trace + [Submitted(next)], limit, jobs, failed, next + 1, done)
    ensures Outstanding(pending + {next}, next + 1, done) && |pending + {next}| == |pending| + 1
  {
    OutstandingSize(pending, next, done);
    LawfulNext(trace, Submitted(next), limit, failed);
    EagerNext(trace, Submitted(next), limit, jobs, failed);
  }

  lemma TracksObserve(trace: seq<Event>, limit: nat, jobs: nat, failed: set<nat>, next: nat, pending: set<nat>,
                      done: set<nat>, job: nat)
    requires Tracks(trace, limit, jobs, failed, next, done) && Outstanding(pending, next, done) && job in pending
    ensures Tracks(trace + [Observed(job)], limit, jobs, failed, next, done + {job})
    ensures Outstanding(pending - {job}, next, done + {job})
  {
    LawfulNext(trace, Observed(job), limit, failed);
    EagerNext(trace, Observed(job), limit, jobs, failed);
  }

  lemma TracksWait(trace: seq<Event>, limit: nat, jobs: nat, failed: set<nat>, next: nat, pending: set<nat>,
                   done: set<nat>)
    requires Tracks(trace, limit, jobs, failed, next, done) && Outstanding(pending, next, done)
    requires pending != {} && (|pending| == limit || next == jobs || !(done !! failed))
    ensures Tracks(trace + [Waited], limit, jobs, failed, next, done)
  {
    OutstandingSize(pending, next, done);
    LawfulNext(trace, Waited, limit, failed);
    EagerNext(trace, Waited, limit, jobs, failed);
  }

  /** The outcomes that were recorded are those of the finished jobs. */
  ghost predicate Records(completed: map<nat, Outcome>, results: seq<Outcome>, done: set<nat>) {
    completed.Keys == done && forall i :: i in completed ==> i < |results| && completed[i] == results[i]
  }

  lemma RecordsNext(completed: map<nat, Outcome>, results: seq<Outcome>, done: set<nat>, job: nat)
    requires Records(completed, results, done) && job < |results|
    ensures Records(completed[job := results[job]], results, done + {job})
  {
  }

  lemma StopsWith(done: set<nat>, failed: set<nat>, job: nat)
    ensures !(done + {job} !! failed) <==> !(done !! failed) || job in failed
  {
  }

  /**
   The variables of the dispatch loop. `results` is what a batch will record for
   each job that is submitted.
   */
  class Dispatcher {
    const results: seq<Outcome>
    const limit: nat
    ghost const failed: set<nat>
    var next: nat
    var pending: set<nat>
    var completed: map<nat, Outcome>
    var stopped: bool
    var trace: seq<Event>
    ghost var done: set<nat>

    constructor (results: seq<Outcome>, maxConcurrentJobs: nat)
      requires results != [] && maxConcurrentJobs >= 1
      ensures Valid() && trace == [] && this.results == results && failed == FailedJobs(results)
      ensures limit == if maxConcurrentJobs <= |results| then maxConcurrentJobs else |results|
    {
      this.results, failed := results, FailedJobs(results);
      limit := if maxConcurrentJobs <= |results| then maxConcurrentJobs else |results|;
      next, pending, completed, stopped, trace := 0, {}, map[], false, [];
      done := {};
    }

    ghost predicate Valid()
      reads this
    {
      && 1 <= limit <= |results| && next <= |results|
      && failed == FailedJobs(results)
      && Tracks(trace, limit, |results|, failed, next, done) && Outstanding(pending, next, done)
      && Records(completed, results, done)
      && (stopped <==> !(done !! failed))
    }

    method Submit()
      requires Valid() && !stopped && next < |results| && |pending| < limit
      modifies this`next, this`pending, this`trace
      ensures Valid() && next == old(next) + 1 && |pending| == |old(pending)| + 1
    {
      TracksSubmit(trace, limit, |results|, failed, next, pending, done);
      pending := pending + {next};
      trace := trace + [Submitted(next)];
      next := next + 1;
    }

    /** The future of a job is done. */
    method Observe(job: nat)
      requires Valid() && job in pending
      modifies this`pending, this`completed, this`stopped, this`trace, this`done
      ensures Valid() && pending == old(pending) - {job}
    {
      TracksObserve(trace, limit, |results|, failed, next, pending, done, job);
      pending := pending - {job};
      trace := trace + [Observed(job)];
      var outcome := results[job];
      StopsWith(done, failed, job);
      RecordsNext(completed, results, done, job);
      completed := completed[job := outcome];
      done := done + {job};
      stopped := stopped || outcome.report.jobFailed;
    }

    /** Waits for pending jobs, when there is nothing else to do. */
    method Await()
      requires Valid() && pending != {} && (|pending| == limit || next == |results| || stopped)
      modifies this`trace
      ensures Valid()
    {
      TracksWait(trace, limit, |results|, failed, next, pending, done);
      trace := trace + [Waited];
    }

    /** Some nonempty part of the pending jobs is done, in any order. */
    method Wait()
      requires Valid() && pending != {} && (|pending| == limit || next == |results| || stopped)
      modifies this`pending, this`completed, this`stopped, this`trace, this`done
      ensures Valid() && pending < old(pending)
    {
      Await();
      var first :| first in pending;
      assert Sequences.SomeOf([first], pending);
      var ready: seq<nat> :| Sequences.SomeOf(ready, pending);
      Sequences.SomeOfMeaning(ready, pending);
      ObserveAll(ready);
    }

    method ObserveAll(ready: seq<nat>)
      requires Valid() && ready != [] && Sequences.Distinct(ready)
      requires forall k :: 0 <= k < |ready| ==> ready[k] in pending
      modifies this`pending, this`completed, this`stopped, this`trace, this`done
      ensures Valid() && pending < old(pending)
    {
      ghost var seen: set<nat> := {};
      for k := 0 to |ready|
        invariant Valid() && Sequences.Visited(ready, k, seen)
        invariant pending == old(pending) - seen
      {
        Sequences.VisitNext(ready, k, seen);
        Observe(ready[k]);
        seen := seen + {ready[k]};
      }
      assert ready[0] in old(pending) && ready[0] in seen;
    }

    /**
     Keeps at most `limit` jobs outstanding, submits no more once a job failed,
     and awaits every job that was submitted.
     */
    method Run(chunks: seq<seq<Variant>>) returns (outcomes: seq<Outcome>)
      requires Valid() && trace == [] && |chunks| == |results|
      modifies this
      ensures Lawful(trace, limit, failed) && Eager(trace, limit, |results|, failed)
      ensures Finished(trace) == Sequences.Indices(Submits(trace))
      ensures limit <= Submits(trace) <= |results|
      ensures Submits(trace) < |results| ==> !(Finished(trace) !! failed)
      ensures |outcomes| == |results| && forall i :: 0 <= i < |results| ==>
        outcomes[i] == if i < Submits(trace) then results[i] else NotSubmitted(chunks[i])
    {
      Serve();
      assert forall i: nat :: i in done <==> i < next;
      outcomes := Collect(chunks);
    }

    /** Fills the window. */
    method Open()
      requires Valid() && trace == []
      modifies this`next, this`pending, this`trace
      ensures Valid() && next == limit == |pending|
    {
      assert done == {} && pending == {};
      while next < limit
        invariant Valid() && next <= limit && !stopped && |pending| == next
      {
        Submit();
      }
    }

    /** Submits more jobs while the window has room and no job failed. */
    method Refill()
      requires Valid() && |pending| < limit
      modifies this`next, this`pending, this`trace
      ensures Valid() && old(next) <= next && |pending| <= limit && (next == old(next) ==> pending == old(pending))
      ensures |pending| == limit || stopped || next == |results|
    {
      while !stopped && next < |results| && |pending| < limit
        invariant Valid() && old(next) <= next && |pending| <= limit && (next == old(next) ==> pending == old(pending))
        decreases |results| - next
      {
        Submit();
      }
    }

    /** Runs until nothing is pending. */
    method Serve()
      requires Valid() && trace == []
      modifies this
      ensures Valid() && pending == {} && limit <= next && (stopped || next == |results|)
    {
      Open();
      while pending != {}
        invariant Valid() && limit <= next && |pending| <= limit
        invariant |pending| == limit || stopped || next == |results|
        decreases |results| - next, |pending|
      {
        ghost var before := pending;
        Wait();
        Sequences.SubsetSize(pending, before);
        Refill();
      }
    }

    /** The outcomes in the order of the chunks; jobs that were not submitted have failed too. */
    method Collect(chunks: seq<seq<Variant>>) returns (outcomes: seq<Outcome>)
      requires Valid() && |chunks| == |results| && forall i: nat :: i in done <==> i < next
      ensures |outcomes| == |results| && forall i :: 0 <= i < |results| ==>
        outcomes[i] == if i < next then results[i] else NotSubmitted(chunks[i])
    {
      outcomes := [];
      for i := 0 to |results|
        invariant |outcomes| == i && forall k :: 0 <= k < i ==>
          outcomes[k] == if k < next then results[k] else NotSubmitted(chunks[k])
      {
        outcomes := outcomes + [if i in completed then completed[i] else NotSubmitted(chunks[i])];
      }
    }
  }

  // --------------------------------------------------------------------- report

  function AllRows(outcomes: seq<Outcome>): seq<Row> {
    if outcomes == [] then [] else AllRows(outcomes[..|outcomes| - 1]) + outcomes[|outcomes| - 1].report.rows
  }

  lemma {:induction false} RowOrigin(outcomes: seq<Outcome>, row: Row)
    ensures row in AllRows(outcomes) <==> exists i :: 0 <= i < |outcomes| && row in outcomes[i].report.rows
  {
    if outcomes != [] {
      var init, last := outcomes[..|outcomes| - 1], outcomes[|outcomes| - 1];
      RowOrigin(init, row);
      assert outcomes == init + [last];
    }
  }

  /** Rows by their ids; of several rows with one id the last is kept. */
  method RowsById(rows: seq<Row>) returns (byId: map<string, Row>)
    ensures forall id :: id in byId ==> byId[id] in rows && byId[id].id == id
    ensures forall row :: row in rows ==> row.id in byId
  {
    byId := map[];
    for k := 0 to |rows|
      invariant forall id :: id in byId ==> byId[id] in rows && byId[id].id == id
      invariant forall j :: 0 <= j < k ==> rows[j].id in byId
    {
      byId := byId[rows[k].id := rows[k]];
    }
  }

  /** One outcome per chunk, with the ids of the chunk. */
  ghost predicate Covers(outcomes: seq<Outcome>, chunks: seq<seq<Variant>>) {
    |outcomes| == |chunks| && forall i :: 0 <= i < |chunks| ==> RowIds(outcomes[i].report.rows) == Ids(chunks[i])
  }

  /** Every variant of a chunk has a row, and with distinct ids only that chunk has it. */
  lemma VariantHasRow(variants: seq<Variant>, n: nat, outcomes: seq<Outcome>, v: Variant)
    requires n >= 1 && v in variants && Covers(outcomes, Chunks(SortById(variants), n))
    ensures HasRow(AllRows(outcomes), v)
  {
    var ordered := SortById(variants);
    assert v in multiset(ordered);
    var j :| 0 <= j < |ordered| && ordered[j] == v;
    ChunkOf(ordered, n, j);
    var i := j % n;
    assert v in Chunks(ordered, n)[i];
    assert v.id in RowIds(outcomes[i].report.rows);
    var row :| row in outcomes[i].report.rows && row.id == v.id;
    RowOrigin(outcomes, row);
  }

  lemma RowFromItsChunk(variants: seq<Variant>, n: nat, outcomes: seq<Outcome>, row: Row, i: nat)
    requires n >= 1 && Covers(outcomes, Chunks(SortById(variants), n)) && DistinctIds(variants)
    requires row in AllRows(outcomes) && i < n && row.id in Ids(Chunks(SortById(variants), n)[i])
    ensures row in outcomes[i].report.rows
  {
    var ordered := SortById(variants);
    var chunks := Chunks(ordered, n);
    RowOrigin(outcomes, row);
    var i' :| 0 <= i' < |outcomes| && row in outcomes[i'].report.rows;
    assert row.id in Ids(chunks[i']);
    var v: Variant :| v in chunks[i] && v.id == row.id;
    var v': Variant :| v' in chunks[i'] && v'.id == row.id;
    var k :| 0 <= k < |chunks[i]| && chunks[i][k] == v;
    var k' :| 0 <= k' < |chunks[i']| && chunks[i'][k'] == v';
    SortKeepsDistinct(variants);
    ChunksDisjoint(ordered, n, i, k, i', k');
  }

  lemma SortKeepsDistinct(variants: seq<Variant>)
    requires DistinctIds(variants)
    ensures DistinctIds(SortById(variants))
  {
    Sorting.PermutationKeepsDistinct(ById, variants, SortById(variants));
    var ordered := SortById(variants);
    forall i, j | 0 <= i < j < |ordered|
      ensures ordered[i].id != ordered[j].id
    {
      assert ById(ordered[i]) != ById(ordered[j]);
    }
  }

  datatype Error = NoVariants | JobRaised(callId: Option<string>)

  /** A single job's outcome, or a row for every variant of the caller and the outcomes of all jobs. */
  datatype Compiled = Single(outcome: Outcome) | Batch(results: seq<Row>, outcomes: seq<Outcome>)

  function Settlements(chunks: seq<seq<Variant>>, jobs: nat -> Job): (results: seq<Outcome>)
    ensures |results| == |chunks| && forall i :: 0 <= i < |chunks| ==> results[i] == Settle(chunks[i], jobs(i))
  {
    seq(|chunks|, i requires 0 <= i < |chunks| => Settle(chunks[i], jobs(i)))
  }

  /** One row per variant, in the order and with the ids of the caller. */
  ghost predicate Answered(results: seq<Row>, variants: seq<Variant>) {
    |results| == |variants| && forall k :: 0 <= k < |variants| ==> results[k].id == variants[k].id
  }

  /** Every variant's row comes from the job of its chunk. */
  ghost predicate FromOwnJobs(results: seq<Row>, variants: seq<Variant>, chunks: seq<seq<Variant>>,
                              outcomes: seq<Outcome>)
  {
    && |results| == |variants| && |outcomes| == |chunks|
    && forall k, i :: 0 <= k < |variants| && 0 <= i < |chunks| && variants[k] in chunks[i] ==>
      results[k] in outcomes[i].report.rows
  }

  /** The rows of the variants in the order of the caller. */
  method Assemble(variants: seq<Variant>, rows: seq<Row>) returns (results: seq<Row>)
    requires forall v :: v in variants ==> HasRow(rows, v)
    ensures Answered(results, variants)
    ensures forall k :: 0 <= k < |results| ==> results[k] in rows
  {
    var byId := RowsById(rows);
    results := [];
    for k := 0 to |variants|
      invariant |results| == k && forall j :: 0 <= j < k ==> results[j].id == variants[j].id
      invariant forall j :: 0 <= j < k ==> results[j] in rows
    {
      assert HasRow(rows, variants[k]);
      results := results + [byId[variants[k].id]];
    }
  }

  lemma AssembledFromOwnJobs(results: seq<Row>, variants: seq<Variant>, n: nat, outcomes: seq<Outcome>)
    requires n >= 1 && Covers(outcomes, Chunks(SortById(variants), n)) && DistinctIds(variants)
    requires Answered(results, variants) && forall k :: 0 <= k < |results| ==> results[k] in AllRows(outcomes)
    ensures FromOwnJobs(results, variants, Chunks(SortById(variants), n), outcomes)
  {
    var chunks := Chunks(SortById(variants), n);
    forall k, i | 0 <= k < |variants| && 0 <= i < |chunks| && variants[k] in chunks[i]
      ensures results[k] in outcomes[i].report.rows
    {
      RowFromItsChunk(variants, n, outcomes, results[k], i);
    }
  }

  /** The report of a batch: see its parts above. */
  ghost predicate BatchOk(c: Compiled, variants: seq<Variant>, chunks: seq<seq<Variant>>, jobs: nat -> Job,
                          limit: nat, trace: seq<Event>)
  {
    && c.Batch? && Answered(c.results, variants) && |c.outcomes| == |chunks|
    && (DistinctIds(variants) ==> FromOwnJobs(c.results, variants, chunks, c.outcomes))
    && RunOk(c.outcomes, chunks, Settlements(chunks, jobs), limit, trace)
  }

  /** The rows that the caller finds in a report. */
  function RowsOf(c: Compiled): seq<Row> {
    match c
    case Single(outcome) => outcome.report.rows
    case Batch(results, _) => results
  }

  /** What a compilation that does not raise may report. */
  ghost predicate MayReport(c: Compiled, variants: seq<Variant>, limits: Limits, jobs: nat -> Job, trace: seq<Event>)
    requires limits.Valid()
  {
    var n := JobCount(|variants|, limits);
    if n == 0 then false
    else if n == 1 then c.Single? && SubmitShard(variants, jobs(0)) == Success(c.outcome)
    else BatchOk(c, variants, Chunks(SortById(variants), n), jobs, LimitOf(limits, n), trace)
  }

  function LimitOf(limits: Limits, n: nat): (limit: nat)
    ensures limit <= n && limit <= limits.maxConcurrentJobs
    ensures limit < n ==> limit == limits.maxConcurrentJobs
  {
    if limits.maxConcurrentJobs <= n then limits.maxConcurrentJobs else n
  }

  /** A single job may answer with two rows exchanged, and is believed. */
  lemma ExchangedRows(variants: seq<Variant>, i: nat, j: nat) returns (job: Job, o: Outcome)
    requires i < j < |variants| && variants[i].id != variants[j].id
    ensures SubmitShard(variants, job) == Success(o) && !Answered(o.report.rows, variants)
  {
    var rows := seq(|variants|, k requires 0 <= k < |variants| =>
      Row(variants[if k == i then j else if k == j then i else k].id, "compiled", ""));
    job := Answers("call", Some(rows), false);
    o := Outcome(Some("call"), Report(rows, false, false));
    forall v | v in variants ensures v.id in RowIds(rows) {
      var k :| 0 <= k < |variants| && variants[k] == v;
      assert rows[if k == i then j else if k == j then i else k].id == v.id;
    }
    assert RowIds(rows) == Ids(variants);
    assert rows[i].id != variants[i].id;
  }

  /**
   Whatever the jobs do, the rows come in the caller's order: exactly if there is more
   than one job, or there are no two different ids to exchange.
   */
  lemma OrderGuaranteed(variants: seq<Variant>, limits: Limits)
    requires limits.Valid() && variants != []
    ensures (forall c, jobs, trace :: MayReport(c, variants, limits, jobs, trace) ==>
      Answered(RowsOf(c), variants)) <==>
      JobCount(|variants|, limits) > 1 || forall i, j :: 0 <= i < j < |variants| ==> variants[i].id == variants[j].id
  {
    JobCountMeaning(|variants|, limits);
    if JobCount(|variants|, limits) == 1 {
      if i, j :| 0 <= i < j < |variants| && variants[i].id != variants[j].id {
        var job, o := ExchangedRows(variants, i, j);
        var jobs: nat -> Job := (n: nat) => job;
        assert MayReport(Single(o), variants, limits, jobs, []);
      } else {
        forall c, jobs, trace | MayReport(c, variants, limits, jobs, trace) ensures Answered(RowsOf(c), variants) {
          SameIds(variants, RowsOf(c));
        }
      }
    }
  }

  lemma SameIds(variants: seq<Variant>, rows: seq<Row>)
    requires forall i, j :: 0 <= i < j < |variants| ==> variants[i].id == variants[j].id
    requires |rows| == |variants| && RowIds(rows) == Ids(variants)
    ensures Answered(rows, variants)
  {
    forall k | 0 <= k < |rows| ensures rows[k].id == variants[k].id {
      assert rows[k] in rows && rows[k].id in RowIds(rows);
      var v: Variant :| v in variants && v.id == rows[k].id;
      var n :| 0 <= n < |variants| && variants[n] == v;
    }
  }

  ghost predicate RunOk(outcomes: seq<Outcome>, chunks: seq<seq<Variant>>, results: seq<Outcome>, limit: nat,
                        trace: seq<Event>)
  {
    && |outcomes| == |chunks| == |results|
    && Lawful(trace, limit, FailedJobs(results)) && Eager(trace, limit, |chunks|, FailedJobs(results))
    && Finished(trace) == Sequences.Indices(Submits(trace))
    && limit <= Submits(trace) <= |chunks|
    && (Submits(trace) < |chunks| ==> !(Finished(trace) !! FailedJobs(results)))
    && forall i :: 0 <= i < |chunks| ==>
      outcomes[i] == if i < Submits(trace) then results[i] else NotSubmitted(chunks[i])
  }

  lemma OutcomesCover(outcomes: seq<Outcome>, chunks: seq<seq<Variant>>, jobs: nat -> Job, limit: nat,
                      trace: seq<Event>)
    requires RunOk(outcomes, chunks, Settlements(chunks, jobs), limit, trace)
    ensures Covers(outcomes, chunks)
  {
  }

  method DispatchAll(chunks: seq<seq<Variant>>, results: seq<Outcome>, maxConcurrentJobs: nat)
    returns (outcomes: seq<Outcome>, trace: seq<Event>)
    requires |results| == |chunks| >= 1 && maxConcurrentJobs >= 1
    ensures
      var limit := if maxConcurrentJobs <= |chunks| then maxConcurrentJobs else |chunks|;
      RunOk(outcomes, chunks, results, limit, trace)
  {
    var dispatcher := new Dispatcher(results, maxConcurrentJobs);
    outcomes := dispatcher.Run(chunks);
    trace := dispatcher.trace;
  }

  /**
   Compiles all variants. One job answers for itself, and whatever it raises is
   raised. Several jobs never raise: whatever they do, and in whichever order
   they finish, every variant gets its row.
   */
  method CompileShards(variants: seq<Variant>, limits: Limits, jobs: nat -> Job)
    returns (r: Result<Compiled, Error>, trace: seq<Event>)
    requires limits.Valid()
    ensures r == Failure(NoVariants) <==> variants == []
    ensures JobCount(|variants|, limits) == 1 ==>
      r == match SubmitShard(variants, jobs(0))
           case Success(o) => Success(Single(o))
           case Failure(id) => Failure(JobRaised(id))
    ensures JobCount(|variants|, limits) > 1 ==>
      var n := JobCount(|variants|, limits);
      r.Success? && BatchOk(r.value, variants, Chunks(SortById(variants), n), jobs, LimitOf(limits, n), trace)
    ensures r.Success? ==> MayReport(r.value, variants, limits, jobs, trace)
  {
    JobCountMeaning(|variants|, limits);
    var n := JobCount(|variants|, limits);
    trace := [];
    if n == 0 {
      return Failure(NoVariants), trace;
    }
    if n == 1 {
      var submitted := SubmitShard(variants, jobs(0));
      r := if submitted.Success? then Success(Single(submitted.value)) else Failure(JobRaised(submitted.error));
      return;
    }
    var chunks := Chunks(SortById(variants), n);
    var results := Settlements(chunks, jobs);
    var outcomes;
    outcomes, trace := DispatchAll(chunks, results, limits.maxConcurrentJobs);
    OutcomesCover(outcomes, chunks, jobs, LimitOf(limits, n), trace);
    forall v | v in variants
      ensures HasRow(AllRows(outcomes), v)
    {
      VariantHasRow(variants, n, outcomes, v);
    }
    var rows := Assemble(variants, AllRows(outcomes));
    if DistinctIds(variants) {
      AssembledFromOwnJobs(rows, variants, n, outcomes);
    }
    r := Success(Batch(rows, outcomes));
  }
}
