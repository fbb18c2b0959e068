// Bounded scheduling of uploads: at most `concurrency` tasks are outstanding,
// and on any error they are drained before the error propagates.
//
// Which tasks finish first, whether a wait is interrupted and which cancellations
// come in time are arbitrary. A run is recorded as the sequence of its steps.

module Uploads {
  import opened Outcomes
  import Sequences

  datatype Error =
    | TaskRaised(task: nat)
    | CompletedRaised(task: nat)
    | IteratorRaised
    | Interrupted

  datatype Event =
    | Submitted(task: nat)
    | Reported(task: nat)
    | Waited
    | Stopped(error: Error)
    | Cancelled(task: nat)
    | Dropped(task: nat)

  /** What the caller provides: the items, which tasks and reports raise, and which waits are interrupted. */
  datatype Work = Work(items: nat, iteratorRaises: bool, taskRaises: nat -> bool, completedRaises: nat -> bool,
                       interrupts: nat -> bool)

  /** How far a run is: tasks 0..next were submitted, these are no longer outstanding, and so many waits are over. */
  datatype Progress = Progress(next: nat, reported: set<nat>, cancelled: set<nat>, dropped: set<nat>, waits: nat,
      cause: Option<Error>)
  {
    function Settled(): set<nat> { reported + cancelled + dropped }
  }

  function Step(p: Progress, e: Event): Progress {
    match e
    case Submitted(_) => p.(next := p.next + 1)
    case Reported(task) => p.(reported := p.reported + {task})
    case Waited => p.(waits := p.waits + 1)
    case Stopped(error) => p.(cause := Some(error))
    case Cancelled(task) => p.(cancelled := p.cancelled + {task})
    case Dropped(task) => p.(dropped := p.dropped + {task})
  }

  function After(trace: seq<Event>): Progress {
    if trace == [] then Progress(0, {}, {}, {}, 0, None)
    else Step(After(trace[..|trace| - 1]), trace[|trace| - 1])
  }

  /** Why a run may stop. */
  predicate Justified(error: Error, p: Progress, concurrency: nat, work: Work) {
    match error
    case TaskRaised(task) => task < p.next && work.taskRaises(task)
    case CompletedRaised(task) => task in p.reported && work.completedRaises(task)
    case IteratorRaised => p.next == work.items && work.iteratorRaises
    case Interrupted => Waits(p, concurrency, work) && work.interrupts(p.waits)
  }

  /** The number of outstanding tasks. */
  function Load(p: Progress): int { p.next - |p.Settled()| }

  /** There is something to wait for, and nothing else to do: the window is full, or every item was submitted. */
  predicate Waits(p: Progress, concurrency: nat, work: Work) {
    Load(p) > 0 && (Load(p) == concurrency || p.next == work.items)
  }

  predicate Allowed(p: Progress, e: Event, concurrency: nat, work: Work) {
    match e
    case Submitted(task) => task == p.next < work.items && Load(p) < concurrency && p.cause.None?
    case Reported(task) => task < p.next && task !in p.Settled() && !work.taskRaises(task)
    case Waited => p.cause.None? && Waits(p, concurrency, work)
    case Stopped(error) => p.cause.None? && Justified(error, p, concurrency, work)
    case Cancelled(task) => task < p.next && task !in p.Settled() && p.cause.Some?
    case Dropped(task) => task < p.next && task !in p.Settled() && p.cause.Some? && work.taskRaises(task)
  }

  /**
   Tasks are submitted in order and never too many; only a stopped run cancels or
   drops tasks, and it submits none; every task settles at most once.
   */
  ghost predicate Lawful(trace: seq<Event>, concurrency: nat, work: Work) {
    trace != [] ==>
      && Lawful(trace[..|trace| - 1], concurrency, work)
      && Allowed(After(trace[..|trace| - 1]), trace[|trace| - 1], concurrency, work)
  }

  lemma LawfulNext(trace: seq<Event>, e: Event, concurrency: nat, work: Work)
    requires Lawful(trace, concurrency, work) && Allowed(After(trace), e, concurrency, work)
    ensures Lawful(trace + [e], concurrency, work) && After(trace + [e]) == Step(After(trace), e)
  {
    assert (trace + [e])[..|trace|] == trace;
  }

  lemma {:induction false} LawfulPrefix(trace: seq<Event>, concurrency: nat, work: Work, k: nat)
    requires Lawful(trace, concurrency, work) && k <= |trace|
    ensures Lawful(trace[..k], concurrency, work)
  {
    if k < |trace| {
      var init := trace[..|trace| - 1];
      LawfulPrefix(init, concurrency, work, k);
      assert init[..k] == trace[..k];
    } else {
      assert trace[..k] == trace;
    }
  }

  // ---------------------------------------------------- what every run satisfies

  /** What every step keeps. */
  ghost predicate Sound(p: Progress, concurrency: nat, work: Work) {
    && (forall i :: i in p.Settled() ==> i < p.next) && 0 <= Load(p) <= concurrency && p.next <= work.items
    && p.reported !! p.cancelled && p.reported !! p.dropped
    && (forall i :: i in p.reported ==> !work.taskRaises(i))
    && (forall i :: i in p.dropped ==> work.taskRaises(i))
    && (p.cause.None? ==> p.cancelled == {} && p.dropped == {})
  }

  lemma StepSound(p: Progress, e: Event, concurrency: nat, work: Work)
    requires Sound(p, concurrency, work) && Allowed(p, e, concurrency, work)
    ensures Sound(Step(p, e), concurrency, work)
  {
    if e.Submitted? || e.Stopped? || e.Waited? {
      assert Step(p, e).Settled() == p.Settled();
    } else {
      SettleSound(p, e, concurrency, work);
    }
  }

  lemma SettleSound(p: Progress, e: Event, concurrency: nat, work: Work)
    requires Sound(p, concurrency, work) && Allowed(p, e, concurrency, work)
    requires e.Reported? || e.Cancelled? || e.Dropped?
    ensures Sound(Step(p, e), concurrency, work)
  {
    SettledNext(p, e);
    SettledSize(Step(p, e));
  }

  lemma SettledNext(p: Progress, e: Event)
    requires e.Reported? || e.Cancelled? || e.Dropped?
    ensures Step(p, e).Settled() == p.Settled() + {e.task}
    ensures e.task !in p.Settled() ==> Load(Step(p, e)) == Load(p) - 1
  {
    assert Step(p, e).Settled() == p.Settled() + {e.task};
  }

  lemma SettledSize(p: Progress)
    requires forall i :: i in p.Settled() ==> i < p.next
    ensures |p.Settled()| <= p.next
    ensures |p.Settled()| == p.next ==> forall i: nat :: i < p.next ==> i in p.Settled()
  {
    assert p.Settled() <= Sequences.Indices(p.next);
    Sequences.SubsetSize(p.Settled(), Sequences.Indices(p.next));
  }

  /** At every moment the outstanding tasks are within the limit, and settled as they should be. */
  lemma {:induction false} AlwaysSound(trace: seq<Event>, concurrency: nat, work: Work, k: nat)
    requires Lawful(trace, concurrency, work) && k <= |trace|
    ensures Sound(After(trace[..k]), concurrency, work)
  {
    if k < |trace| {
      var init := trace[..|trace| - 1];
      AlwaysSound(init, concurrency, work, k);
      assert init[..k] == trace[..k];
    } else {
      assert trace[..k] == trace;
      if trace != [] {
        var init := trace[..|trace| - 1];
        AlwaysSound(init, concurrency, work, |init|);
        assert init[..|init|] == init;
        StepSound(After(init), trace[|trace| - 1], concurrency, work);
      }
    }
  }

  /** Nothing is submitted after the run was stopped. */
  lemma {:induction false} NothingAfterStop(trace: seq<Event>, concurrency: nat, work: Work, a: nat, b: nat)
    requires Lawful(trace, concurrency, work) && a < b < |trace| && trace[a].Stopped?
    ensures !trace[b].Submitted? && !trace[b].Stopped?
  {
    var init := trace[..|trace| - 1];
    if b < |init| {
      NothingAfterStop(init, concurrency, work, a, b);
    } else {
      StoppedHasCause(init, a);
    }
  }

  lemma {:induction false} StoppedHasCause(trace: seq<Event>, a: nat)
    requires a < |trace| && trace[a].Stopped?
    ensures After(trace).cause.Some?
  {
    if a < |trace| - 1 {
      StoppedHasCause(trace[..|trace| - 1], a);
    }
  }

  lemma CountLast(trace: seq<Event>, e: Event)
    requires trace != []
    ensures multiset(trace)[e] == multiset(trace[..|trace| - 1])[e] + if trace[|trace| - 1] == e then 1 else 0
  {
    assert trace == trace[..|trace| - 1] + [trace[|trace| - 1]];
  }

  /** The scheduler waits only with a full window, or once every item was submitted. */
  lemma {:induction false} WaitsWhenFull(trace: seq<Event>, concurrency: nat, work: Work, k: nat)
    requires Lawful(trace, concurrency, work) && k < |trace| && trace[k] == Waited
    ensures var p := After(trace[..k]);
      Load(p) == concurrency || (p.next == work.items && 0 < Load(p) <= concurrency)
  {
    LawfulPrefix(trace, concurrency, work, k + 1);
    AlwaysSound(trace, concurrency, work, k);
    assert trace[..k + 1][..k] == trace[..k];
  }

  /** Without anything that raises or interrupts, nothing stops a run. */
  lemma NothingStops(trace: seq<Event>, concurrency: nat, work: Work)
    requires Lawful(trace, concurrency, work) && !work.iteratorRaises
    requires forall n: nat :: !work.taskRaises(n) && !work.completedRaises(n) && !work.interrupts(n)
    ensures After(trace).cause.None?
  {
    if After(trace).cause.Some? {
      CauseJustified(trace, concurrency, work);
    }
  }

  /** A task is reported at most once. */
  lemma {:induction false} ReportedOnce(trace: seq<Event>, concurrency: nat, work: Work, task: nat)
    requires Lawful(trace, concurrency, work)
    ensures multiset(trace)[Reported(task)] == if task in After(trace).reported then 1 else 0
  {
    if trace != [] {
      var init, last := trace[..|trace| - 1], trace[|trace| - 1];
      ReportedOnce(init, concurrency, work, task);
      CountLast(trace, Reported(task));
      assert last == Reported(task) ==> task !in After(init).Settled();
    }
  }

  /** The reason for an error: a task, a report, the iterator after the last item, or an interrupted wait. */
  ghost predicate Because(error: Error, p: Progress, work: Work) {
    match error
    case TaskRaised(task) => task < p.next && work.taskRaises(task)
    case CompletedRaised(task) => task in p.reported && work.completedRaises(task)
    case IteratorRaised => p.next == work.items && work.iteratorRaises
    case Interrupted => Load(p) > 0 && work.interrupts(p.waits)
  }

  /** The error that stopped a run has a reason in what ran before. */
  lemma {:induction false} CauseJustified(trace: seq<Event>, concurrency: nat, work: Work)
    requires Lawful(trace, concurrency, work) && After(trace).cause.Some?
    ensures exists k :: 0 <= k < |trace| && StoppedAt(trace, k, After(trace).cause.value, work)
  {
    var n := |trace| - 1;
    if trace[n].Stopped? {
      assert StoppedAt(trace, n, trace[n].error, work);
    } else {
      CauseJustified(trace[..n], concurrency, work);
      var k :| 0 <= k < n && StoppedAt(trace[..n], k, After(trace[..n]).cause.value, work);
      StoppedAtLater(trace, k, After(trace[..n]).cause.value, work);
    }
  }

  lemma StoppedAtLater(trace: seq<Event>, k: nat, error: Error, work: Work)
    requires k < |trace| - 1 && StoppedAt(trace[..|trace| - 1], k, error, work)
    ensures StoppedAt(trace, k, error, work)
  {
    assert trace[..|trace| - 1][..k] == trace[..k];
  }

  ghost predicate StoppedAt(trace: seq<Event>, k: nat, error: Error, work: Work)
    requires k < |trace|
  {
    trace[k] == Stopped(error) && Because(error, After(trace[..k]), work)
  }

  lemma FullySettled(p: Progress, concurrency: nat, work: Work, task: nat)
    requires Sound(p, concurrency, work) && Load(p) == 0
    ensures task in p.reported <==> task < p.next && !work.taskRaises(task) && task !in p.cancelled
    ensures p.cause.None? && task < p.next ==> task in p.reported
  {
    SettledSize(p);
    assert task in p.Settled() <==> task < p.next;
  }

  /**
   Once all tasks are drained, those that succeeded and were not cancelled were
   reported exactly once, and no others. A run that nothing stopped reported all.
   */
  lemma Drained(trace: seq<Event>, concurrency: nat, work: Work, task: nat)
    requires Lawful(trace, concurrency, work) && Load(After(trace)) == 0
    ensures
      var p := After(trace);
      && multiset(trace)[Reported(task)] ==
         (if task < p.next && !work.taskRaises(task) && task !in p.cancelled then 1 else 0)
      && (p.cause.None? && task < p.next ==> multiset(trace)[Reported(task)] == 1 && !work.taskRaises(task))
  {
    ReportedOnce(trace, concurrency, work, task);
    AlwaysSound(trace, concurrency, work, |trace|);
    assert trace[..|trace|] == trace;
    FullySettled(After(trace), concurrency, work, task);
  }

  /** A run that ended normally reported every task. */
  lemma AllReported(trace: seq<Event>, concurrency: nat, work: Work, task: nat)
    requires Lawful(trace, concurrency, work) && Load(After(trace)) == 0 && After(trace).cause.None?
    requires task < After(trace).next
    ensures task in After(trace).reported && !work.taskRaises(task)
  {
    AlwaysSound(trace, concurrency, work, |trace|);
    assert trace[..|trace|] == trace;
    FullySettled(After(trace), concurrency, work, task);
  }

  /** What one event of a run adds to the reported tasks. */
  lemma ReportStep(trace: seq<Event>, concurrency: nat, work: Work, k: nat)
    requires Lawful(trace, concurrency, work) && k < |trace|
    ensures trace[k].Reported? ==>
      && trace[k].task < work.items && !work.taskRaises(trace[k].task)
      && trace[k].task !in After(trace[..k]).reported
      && After(trace[..k + 1]).reported == After(trace[..k]).reported + {trace[k].task}
    ensures !trace[k].Reported? ==> After(trace[..k + 1]).reported == After(trace[..k]).reported
  {
    var before, after := trace[..k], trace[..k + 1];
    assert after[..k] == before && after[k] == trace[k];
    LawfulPrefix(trace, concurrency, work, k + 1);
    AlwaysSound(trace, concurrency, work, k);
    assert Allowed(After(before), trace[k], concurrency, work);
    assert After(after) == Step(After(before), trace[k]);
  }

  // ------------------------------------------------------------------- the run

  /** The tasks that were submitted and have not settled. */
  ghost predicate Outstanding(pending: set<nat>, p: Progress) {
    && (forall i: nat :: i in pending <==> i < p.next && i !in p.Settled())
    && forall i: nat :: i in p.Settled() ==> i < p.next
  }

  lemma OutstandingSize(pending: set<nat>, p: Progress)
    requires Outstanding(pending, p)
    ensures |pending| == Load(p)
  {
    assert pending + p.Settled() == Sequences.Indices(p.next);
    assert pending !! p.Settled();
    assert |pending + p.Settled()| == |pending| + |p.Settled()|;
  }

  /** One more task. */
  lemma OutstandingSubmit(pending: set<nat>, p: Progress)
    requires Outstanding(pending, p)
    ensures Load(p) == |pending|
    ensures Outstanding(pending + {p.next}, Step(p, Submitted(p.next))) && |pending + {p.next}| == |pending| + 1
  {
    OutstandingSize(pending, p);
    assert Step(p, Submitted(p.next)).Settled() == p.Settled();
  }

  /** One task fewer. */
  lemma OutstandingSettle(pending: set<nat>, p: Progress, e: Event)
    requires Outstanding(pending, p) && (e.Reported? || e.Cancelled? || e.Dropped?) && e.task in pending
    ensures Outstanding(pending - {e.task}, Step(p, e))
  {
    assert Step(p, e).Settled() == p.Settled() + {e.task};
  }

  class Uploader {
    const work: Work
    const concurrency: nat
    var next: nat
    var pending: set<nat>
    var exhausted: bool
    var waits: nat
    var trace: seq<Event>
    ghost var progress: Progress

    constructor (work: Work, concurrency: nat)
      requires concurrency >= 1
      ensures Running() && trace == [] && !exhausted && this.work == work && this.concurrency == concurrency
    {
      this.work, this.concurrency := work, concurrency;
      waits := 0;
      next, pending, exhausted, trace, progress := 0, {}, false, [], Progress(0, {}, {}, {}, 0, None);
    }

    ghost predicate Valid()
      reads this
    {
      && concurrency >= 1 && next == progress.next <= work.items && waits == progress.waits
      && Lawful(trace, concurrency, work) && After(trace) == progress
      && Outstanding(pending, progress) && |pending| <= concurrency
      && (exhausted ==> next == work.items && !work.iteratorRaises)
    }

    ghost predicate Running()
      reads this
    {
      Valid() && progress.cause.None?
    }

    ghost predicate Stopping(error: Error)
      reads this
    {
      Valid() && progress.cause == Some(error)
    }

    method Submit()
      requires Running() && next < work.items && |pending| < concurrency
      modifies this`next, this`pending, this`trace, this`progress
      ensures Running() && next == old(next) + 1 && |pending| == |old(pending)| + 1
    {
      OutstandingSubmit(pending, progress);
      LawfulNext(trace, Submitted(next), concurrency, work);
      progress := Step(progress, Submitted(next));
      pending := pending + {next};
      trace := trace + [Submitted(next)];
      next := next + 1;
    }

    method Stop(error: Error)
      requires Running() && Justified(error, progress, concurrency, work)
      modifies this`trace, this`progress
      ensures Stopping(error)
    {
      LawfulNext(trace, Stopped(error), concurrency, work);
      assert Step(progress, Stopped(error)).Settled() == progress.Settled();
      progress := Step(progress, Stopped(error));
      trace := trace + [Stopped(error)];
    }

    /** The task leaves the pending ones, by an event that settles it. */
    method Settle(e: Event)
      requires Valid() && (e.Reported? || e.Cancelled? || e.Dropped?) && e.task in pending
      requires Allowed(progress, e, concurrency, work)
      modifies this`pending, this`trace, this`progress
      ensures Valid() && pending == old(pending) - {e.task} && progress == Step(old(progress), e)
    {
      LawfulNext(trace, e, concurrency, work);
      OutstandingSettle(pending, progress, e);
      progress := Step(progress, e);
      pending := pending - {e.task};
      trace := trace + [e];
    }

    /** Submits items while there is room. */
    method Fill() returns (error: Option<Error>)
      requires Running()
      modifies this`next, this`pending, this`trace, this`exhausted, this`progress
      ensures error.None? ==> Running() && (exhausted || |pending| == concurrency)
      ensures error.Some? ==> Stopping(error.value) && error.value == IteratorRaised
      ensures old(next) <= next && (next == old(next) ==> pending == old(pending)) && (old(exhausted) ==> exhausted)
    {
      while !exhausted && |pending| < concurrency
        invariant Running() && old(next) <= next && (next == old(next) ==> pending == old(pending))
        invariant old(exhausted) ==> exhausted
        decreases !exhausted, work.items - next
      {
        if next < work.items {
          Submit();
        } else if work.iteratorRaises {
          Stop(IteratorRaised);
          return Some(IteratorRaised);
        } else {
          exhausted := true;
        }
      }
      return None;
    }

    /** Observes one task that is done. */
    method Observe(task: nat) returns (error: Option<Error>)
      requires Running() && task in pending
      modifies this`pending, this`trace, this`progress
      ensures error.None? ==> Running() && pending == old(pending) - {task}
      ensures error.Some? ==>
        Stopping(error.value) && (error.value == TaskRaised(task) || error.value == CompletedRaised(task))
    {
      if work.taskRaises(task) {
        Stop(TaskRaised(task));
        return Some(TaskRaised(task));
      }
      Settle(Reported(task));
      if work.completedRaises(task) {
        Stop(CompletedRaised(task));
        return Some(CompletedRaised(task));
      }
      return None;
    }

    /** Waits for some task to be done, unless that is interrupted. */
    method Await() returns (error: Option<Error>)
      requires Running() && pending != {} && (exhausted || |pending| == concurrency)
      modifies this`trace, this`progress, this`waits
      ensures error.None? ==> Running()
      ensures error.Some? ==> Stopping(error.value)
    {
      OutstandingSize(pending, progress);
      if work.interrupts(waits) {
        Stop(Interrupted);
        return Some(Interrupted);
      }
      LawfulNext(trace, Waited, concurrency, work);
      assert Step(progress, Waited).Settled() == progress.Settled();
      progress := Step(progress, Waited);
      trace := trace + [Waited];
      waits := waits + 1;
      return None;
    }

    /** Waits until some tasks are done, and observes them. */
    method Wait() returns (error: Option<Error>)
      requires Running() && pending != {} && (exhausted || |pending| == concurrency)
      modifies this`pending, this`trace, this`progress, this`waits
      ensures error.None? ==> Running() && pending < old(pending)
      ensures error.Some? ==> Stopping(error.value)
    {
      error := Await();
      if error.Some? {
        return;
      }
      error := ObserveSome();
    }

    /** Observes the tasks that are done, at least one. */
    method ObserveSome() returns (error: Option<Error>)
      requires Running() && pending != {}
      modifies this`pending, this`trace, this`progress
      ensures error.None? ==> Running() && pending < old(pending)
      ensures error.Some? ==> Stopping(error.value)
    {
      var first :| first in pending;
      assert Sequences.SomeOf([first], pending);
      var done: seq<nat> :| Sequences.SomeOf(done, pending);
      Sequences.SomeOfMeaning(done, pending);
      error := ObserveAll(done);
    }

    method ObserveAll(done: seq<nat>) returns (error: Option<Error>)
      requires Running() && done != [] && Sequences.Distinct(done)
      requires forall k :: 0 <= k < |done| ==> done[k] in pending
      modifies this`pending, this`trace, this`progress
      ensures error.None? ==> Running() && pending < old(pending)
      ensures error.Some? ==> Stopping(error.value)
    {
      ghost var seen: set<nat> := {};
      for k := 0 to |done|
        invariant Running() && Sequences.Visited(done, k, seen) && pending == old(pending) - seen
      {
        Sequences.VisitNext(done, k, seen);
        error := Observe(done[k]);
        if error.Some? {
          return;
        }
        seen := seen + {done[k]};
      }
      assert done[0] in old(pending) && done[0] in seen;
      return None;
    }

    /** Cancels what can still be cancelled and awaits the rest; successes are still reported. */
    method Drain(ghost error: Error)
      requires Stopping(error)
      modifies this`pending, this`trace, this`progress
      ensures Stopping(error) && pending == {}
    {
      while pending != {}
        invariant Stopping(error)
        decreases pending
      {
        var task :| task in pending;
        if * {
          Settle(Cancelled(task));
        } else if work.taskRaises(task) {
          Settle(Dropped(task));
        } else {
          Settle(Reported(task));
        }
      }
    }

    method Serve() returns (error: Option<Error>)
      requires Running() && !exhausted
      modifies this
      ensures error.None? ==> Running() && pending == {} && exhausted
      ensures error.Some? ==> Stopping(error.value)
    {
      while pending != {} || !exhausted
        invariant Running()
        decreases work.items - next, !exhausted, pending
      {
        error := Fill();
        if error.Some? {
          return;
        }
        if pending == {} {
          break;
        }
        error := Wait();
        if error.Some? {
          return;
        }
      }
      return None;
    }

    /**
     Returns normally after every item was uploaded and reported; otherwise with
     the first error, after all tasks have settled.
     */
    method Run() returns (error: Option<Error>)
      requires Running() && trace == [] && !exhausted
      modifies this
      ensures Lawful(trace, concurrency, work) && Load(After(trace)) == 0 && After(trace).cause == error
      ensures error.None? ==> After(trace).next == work.items && !work.iteratorRaises
    {
      error := Serve();
      if error.Some? {
        Drain(error.value);
      }
      OutstandingSize(pending, progress);
    }
  }
}
