// Publication of training checkpoints: the interval that fits the version budget,
// the numbered markers of an output, and the publisher that looks at the latest
// checkpoint from time to time.

module CheckpointBudget {
  import opened Outcomes
  import opened Arithmetic

  const MAXIMUM_VERSIONS: nat := 4

  datatype Error = StepsNotPositive | IntervalNotPositive | IntervalTooLong | TooManyVersions | LimitReached
    | Unrecognized | Unavailable

  // ------------------------------------------------------------------- interval

  function CheckpointInterval(maxSteps: int, requested: Option<int>): Result<int, Error> {
    if maxSteps < 1 then Failure(StepsNotPositive)
    else if requested.Some? && requested.value < 1 then Failure(IntervalNotPositive)
    else
      var interval: nat := if requested.Some? then requested.value else CeilDiv(maxSteps, MAXIMUM_VERSIONS);
      if interval > maxSteps then Failure(IntervalTooLong)
      else if interval > 0 && CeilDiv(maxSteps, interval) > MAXIMUM_VERSIONS then Failure(TooManyVersions)
      else Success(interval)
  }

  /** At most four intervals of a positive length cover the run, and one does not exceed it. */
  predicate Covers(interval: int, maxSteps: int) {
    1 <= interval <= maxSteps && maxSteps <= 4 * interval
  }

  /** Exactly these runs are divided into four parts by the default interval. */
  lemma DefaultUsesFour(maxSteps: nat)
    requires maxSteps >= 1
    ensures
      var interval: nat := CeilDiv(maxSteps, MAXIMUM_VERSIONS);
      && interval >= 1 && CheckpointInterval(maxSteps, None) == Success(interval)
      && (CeilDiv(maxSteps, interval) == 4 <==> maxSteps in {4, 7, 8} || maxSteps >= 10)
  {
    var interval := CeilDiv(maxSteps, MAXIMUM_VERSIONS);
    IntervalAccepted(maxSteps, None);
    PartsAre(maxSteps, interval, 4);
    assert interval == (maxSteps + 3) / 4;
  }

  /** A length has this many parts if all but the last are not enough. */
  lemma PartsAre(length: nat, interval: nat, parts: nat)
    requires length > 0 && interval > 0 && parts > 0
    ensures CeilDiv(length, interval) == parts <==> (parts - 1) * interval < length <= parts * interval
  {
    var n := CeilDiv(length, interval);
    CeilDivMeaning(length, interval);
    Monotone(n, parts - 1, interval);
    Monotone(parts, n - 1, interval);
  }

  /** The documentation promises four parts; nine steps have three. */
  lemma DefaultMayUseFewer()
    ensures CheckpointInterval(9, None) == Success(3) && CeilDiv(9, 3) == 3
  {
    assert CeilDiv(9, 4) == 3 && CeilDiv(9, 3) == 3;
  }

  /**
   The default always fits. A requested interval is accepted exactly if it is
   positive, does not exceed the run, and four of them cover the run.
   */
  lemma IntervalAccepted(maxSteps: int, requested: Option<int>)
    ensures
      var r := CheckpointInterval(maxSteps, requested);
      && (r.Success? <==> maxSteps >= 1 && (requested.Some? ==> Covers(requested.value, maxSteps)))
      && (r.Success? ==> Covers(r.value, maxSteps))
      && (r.Success? && requested.Some? ==> r.value == requested.value)
      && (r.Success? && requested.None? ==> forall i: nat :: maxSteps <= i * 4 ==> r.value <= i)
  {
    if maxSteps >= 1 && (requested.None? || requested.value >= 1) {
      CeilDivMeaning(maxSteps, MAXIMUM_VERSIONS);
      CeilDivAtMost(maxSteps, MAXIMUM_VERSIONS);
      var interval := if requested.Some? then requested.value else CeilDiv(maxSteps, MAXIMUM_VERSIONS);
      CeilDivMeaning(maxSteps, interval);
      Monotone(CeilDiv(maxSteps, interval), MAXIMUM_VERSIONS, interval);
      assert MAXIMUM_VERSIONS * interval == interval * MAXIMUM_VERSIONS;
    }
  }

  // ------------------------------------------------------------------ publisher

  /** A checkpoint directory, the step in its name if it has one, and whether the directory is there. */
  datatype Checkpoint = Checkpoint(name: string, step: Option<nat>, available: bool)

  function Completed(c: Checkpoint): nat { if c.step.Some? then c.step.value + 1 else 0 }

  predicate Resumed(c: Checkpoint) { c.name == "resume" }

  /** Generations that were marked, in the order of their publication. */
  type History = seq<Checkpoint>

  /** Each name once, and the g-th not before g intervals were completed. */
  ghost predicate HistoryOk(history: History, interval: nat) {
    && (forall i, j :: 0 <= i < j < |history| ==> history[i].name != history[j].name)
    && forall i :: 0 <= i < |history| ==>
      history[i].step.Some? && history[i].name != "resume" && history[i].step.value + 1 >= (i + 1) * interval
  }

  predicate Due(c: Checkpoint, published: set<string>, interval: nat) {
    !Resumed(c) && c.name !in published && c.step.Some? && Completed(c) >= (|published| + 1) * interval
  }

  ghost predicate Within(c: Checkpoint, maxSteps: nat) {
    c.step.Some? ==> c.step.value < maxSteps
  }

  /** A run that the interval fits never needs a fifth version. */
  lemma BudgetSuffices(c: Checkpoint, published: set<string>, interval: nat, maxSteps: nat)
    requires Due(c, published, interval) && Within(c, maxSteps) && maxSteps <= MAXIMUM_VERSIONS * interval
    ensures |published| < MAXIMUM_VERSIONS
  {
    if |published| >= MAXIMUM_VERSIONS {
      Monotone(MAXIMUM_VERSIONS + 1, |published| + 1, interval);
      assert false;
    }
  }

  ghost predicate Named(history: History, name: string) {
    exists i :: 0 <= i < |history| && history[i].name == name
  }

  /** The names and generations that are remembered are those of the history. */
  ghost predicate Remembers(published: map<string, nat>, history: History) {
    && |published.Keys| == |history|
    && (forall i :: 0 <= i < |history| ==> history[i].name in published && published[history[i].name] == i + 1)
    && (forall name :: name in published ==> Named(history, name))
  }

  ghost predicate Marked(markers: set<nat>, count: nat) {
    forall g: nat :: g in markers <==> 1 <= g <= count
  }

  lemma HistoryNext(published: map<string, nat>, history: History, c: Checkpoint, interval: nat)
    requires HistoryOk(history, interval) && Remembers(published, history) && Due(c, published.Keys, interval)
    ensures HistoryOk(history + [c], interval)
  {
    var after := history + [c];
    forall i, j | 0 <= i < j < |after|
      ensures after[i].name != after[j].name
    {
      assert history[i].name in published;
    }
  }

  lemma RemembersNext(published: map<string, nat>, history: History, c: Checkpoint)
    requires Remembers(published, history) && c.name !in published
    ensures Remembers(published[c.name := |history| + 1], history + [c])
  {
    var after, next := history + [c], published[c.name := |history| + 1];
    assert next.Keys == published.Keys + {c.name};
    forall i | 0 <= i < |after|
      ensures after[i].name in next && next[after[i].name] == i + 1
    {
      assert i < |history| ==> after[i] == history[i] && history[i].name in published;
    }
    forall name | name in next
      ensures Named(after, name)
    {
      NamedNext(history, c, name);
    }
  }

  lemma NextRemembered(published: map<string, nat>, history: History, c: Checkpoint, interval: nat)
    requires HistoryOk(history, interval) && Remembers(published, history) && Due(c, published.Keys, interval)
    ensures HistoryOk(history + [c], interval) && Remembers(published[c.name := |history| + 1], history + [c])
  {
    HistoryNext(published, history, c, interval);
    RemembersNext(published, history, c);
  }

  lemma NamedNext(history: History, c: Checkpoint, name: string)
    requires Named(history, name) || name == c.name
    ensures Named(history + [c], name)
  {
    var after := history + [c];
    if name == c.name {
      assert after[|history|].name == name;
    } else {
      var i :| 0 <= i < |history| && history[i].name == name;
      assert after[i].name == name;
    }
  }

  class Publisher {
    const interval: nat
    var published: map<string, nat>
    /** The generations that are marked on disk. */
    var markers: set<nat>
    var history: History

    constructor (interval: nat)
      requires interval >= 1
      ensures Valid() && history == [] && published == map[] && this.interval == interval
    {
      this.interval := interval;
      published, markers, history := map[], {}, [];
    }

    ghost predicate Valid()
      reads this
    {
      interval >= 1 && HistoryOk(history, interval) && Remembers(published, history) && Marked(markers, |history|)
    }

    /** Marks a directory with the next generation, unless the limit is reached. */
    method Mark(c: Checkpoint) returns (r: Result<nat, Error>)
      requires Valid()
      modifies this`markers
      ensures r.Success? <==> c.available && |history| < 4
      ensures r == Failure(LimitReached) <==> c.available && |history| >= 4
      ensures r.Success? ==> r.value == |history| + 1 && Marked(markers, |history| + 1)
      ensures r.Failure? ==> markers == old(markers)
    {
      if !c.available {
        return Failure(Unavailable);
      }
      var latest := Largest(markers, |history|);
      var generation := latest + 1;
      if generation > MAXIMUM_VERSIONS {
        return Failure(LimitReached);
      }
      markers := markers + {generation};
      return Success(generation);
    }

    /** Looks at the latest checkpoint, and publishes it if it is due. */
    method PublishLatest(latest: Option<Checkpoint>) returns (r: Option<Error>)
      requires Valid()
      modifies this`published, this`markers, this`history
      ensures Valid()
      ensures history == if old(Publishes(latest)) then old(history) + [latest.value] else old(history)
      ensures r == Some(LimitReached) <==>
        old(latest.Some? && IsDue(latest.value) && latest.value.available && |history| >= MAXIMUM_VERSIONS)
    {
      if latest.None? || latest.value.name == "resume" || latest.value.name in published {
        return None;
      }
      var c := latest.value;
      if c.step.None? {
        return Some(Unrecognized);
      }
      if Completed(c) < (|published.Keys| + 1) * interval {
        return None;
      }
      assert IsDue(c);
      var marked := Mark(c);
      if marked.Failure? {
        return Some(marked.error);
      }
      Remember(c, marked.value);
      return None;
    }

    /** The publication of a marked checkpoint is remembered. */
    method Remember(c: Checkpoint, generation: nat)
      requires interval >= 1 && HistoryOk(history, interval) && Remembers(published, history)
      requires Marked(markers, |history| + 1) && generation == |history| + 1 && IsDue(c)
      modifies this`published, this`history
      ensures Valid() && history == old(history) + [c]
    {
      NextRemembered(published, history, c, interval);
      published := published[c.name := generation];
      history := history + [c];
    }

    predicate IsDue(c: Checkpoint)
      reads this
    {
      Due(c, published.Keys, interval)
    }

    predicate Publishes(latest: Option<Checkpoint>)
      reads this
    {
      latest.Some? && IsDue(latest.value) && latest.value.available && |history| < MAXIMUM_VERSIONS
    }
  }

  /** max(marked, default=0) */
  method Largest(marked: set<nat>, ghost most: nat) returns (largest: nat)
    requires Marked(marked, most)
    ensures largest == most
  {
    largest := 0;
    var left := marked;
    while left != {}
      invariant left <= marked && largest <= most
      invariant forall g :: g in marked && g !in left ==> g <= largest
      decreases left
    {
      var g :| g in left;
      if g > largest {
        largest := g;
      }
      left := left - {g};
    }
    assert most >= 1 ==> most in marked;
  }

  /** A checkpoint is due after these publications. */
  ghost predicate DueAfter(history: History, c: Checkpoint, interval: nat) {
    && c.name != "resume" && !Named(history, c.name)
    && c.step.Some? && c.step.value + 1 >= (|history| + 1) * interval
  }

  /** One look at the latest checkpoint publishes it exactly if it is due by then and available. */
  ghost predicate Step(before: History, after: History, latest: Option<Checkpoint>, interval: nat) {
    after == if latest.Some? && DueAfter(before, latest.value, interval) && latest.value.available
             then before + [latest.value] else before
  }

  /**
   A whole run over any sequence of observations below the last step; `lengths` are the
   numbers of publications before each observation and at the end. Each observation is
   published exactly if it was due by then and available; no name is published twice,
   never more than four versions, and the limit is not reached.
   */
  method Run(maxSteps: nat, requested: Option<int>, observations: seq<Option<Checkpoint>>)
    returns (history: History, errors: seq<Error>, ghost lengths: seq<nat>)
    requires CheckpointInterval(maxSteps, requested).Success?
    requires forall k :: 0 <= k < |observations| && observations[k].Some? ==> Within(observations[k].value, maxSteps)
    ensures HistoryOk(history, CheckpointInterval(maxSteps, requested).value) && |history| <= 4
    ensures LimitReached !in errors
    ensures |lengths| == |observations| + 1 && lengths[0] == 0 && lengths[|observations|] == |history|
    ensures Stepped(history, observations, lengths, |observations|, CheckpointInterval(maxSteps, requested).value)
  {
    IntervalAccepted(maxSteps, requested);
    var interval := CheckpointInterval(maxSteps, requested).value;
    var publisher := new Publisher(interval);
    errors, lengths := [], [0];
    for k := 0 to |observations|
      invariant publisher.Valid() && publisher.interval == interval && fresh(publisher)
      invariant |publisher.history| <= MAXIMUM_VERSIONS && LimitReached !in errors
      invariant |lengths| == k + 1 && lengths[0] == 0 && lengths[k] == |publisher.history|
      invariant Stepped(publisher.history, observations, lengths, k, interval)
    {
      ghost var before := publisher.history;
      var error := Observe(publisher, observations[k], maxSteps);
      if error.Some? {
        errors := errors + [error.value];
      }
      SteppedNext(before, publisher.history, observations, lengths, k, interval);
      lengths := lengths + [|publisher.history|];
    }
    history := publisher.history;
  }

  /** One look at the latest checkpoint, within the budget. */
  method Observe(publisher: Publisher, latest: Option<Checkpoint>, maxSteps: nat) returns (error: Option<Error>)
    requires publisher.Valid() && |publisher.history| <= MAXIMUM_VERSIONS && Covers(publisher.interval, maxSteps)
    requires latest.Some? ==> Within(latest.value, maxSteps)
    modifies publisher
    ensures publisher.Valid() && |publisher.history| <= MAXIMUM_VERSIONS && error != Some(LimitReached)
    ensures Step(old(publisher.history), publisher.history, latest, publisher.interval)
  {
    if latest.Some? {
      DueByHistory(publisher.published, publisher.history, latest.value, publisher.interval);
      if publisher.IsDue(latest.value) {
        BudgetSuffices(latest.value, publisher.published.Keys, publisher.interval, maxSteps);
      }
    }
    error := publisher.PublishLatest(latest);
  }

  lemma DueByHistory(published: map<string, nat>, history: History, c: Checkpoint, interval: nat)
    requires Remembers(published, history)
    ensures DueAfter(history, c, interval) <==> Due(c, published.Keys, interval)
  {
    if Named(history, c.name) {
      var i :| 0 <= i < |history| && history[i].name == c.name;
      assert history[i].name in published;
    }
  }

  ghost predicate StepAt(history: History, observations: seq<Option<Checkpoint>>, lengths: seq<nat>, j: nat,
                         interval: nat)
    requires j < |observations| && j + 1 < |lengths|
  {
    && lengths[j] <= lengths[j + 1] <= |history|
    && Step(history[..lengths[j]], history[..lengths[j + 1]], observations[j], interval)
  }

  /** The first k observations were each handled by the publications before them. */
  ghost predicate Stepped(history: History, observations: seq<Option<Checkpoint>>, lengths: seq<nat>, k: nat,
                          interval: nat)
    requires k <= |observations| && k < |lengths|
  {
    forall j: nat :: j < k ==> StepAt(history, observations, lengths, j, interval)
  }

  lemma SteppedNext(before: History, after: History, observations: seq<Option<Checkpoint>>, lengths: seq<nat>, k: nat,
                    interval: nat)
    requires k < |observations| && |lengths| == k + 1 && lengths[k] == |before|
    requires Stepped(before, observations, lengths, k, interval) && Step(before, after, observations[k], interval)
    ensures Stepped(after, observations, lengths + [|after|], k + 1, interval)
  {
    assert before == after[..|before|] && after[..|after|] == after;
    forall j: nat | j < k
      ensures StepAt(after, observations, lengths + [|after|], j, interval)
    {
      assert StepAt(before, observations, lengths, j, interval);
      assert after[..lengths[j]] == before[..lengths[j]] && after[..lengths[j + 1]] == before[..lengths[j + 1]];
    }
  }
}
