// The worker side of tuning: every candidate gets a pilot timing, the survivors a
// refined one, and the rows that remain a final one. A timing may prune other
// rows only after its own row has passed evaluation.
//
// Rows are addressed by their position; `entries` lists the rows that carry a
// prepared candidate. Timings and verdicts are arbitrary functions; a verdict may
// depend on how many evaluations came before it.

module Measurement {
  import opened Outcomes
  import opened Pruning
  import opened Sequences
  import Sorting

  type Id = string

  datatype Status = Unset | Measured | Invalid | PilotPruned | RefinedPruned | CompileFailed
  datatype Evaluation = NotEvaluated | Skipped | Passed | Failed
  datatype Verdict = Accept | Reject | NotABool

  datatype Row = Row(id: Id, status: Status, evaluation: Evaluation,
                     pilot: Option<real>, refined: Option<real>, runtime: Option<real>)

  datatype Error = NotABoolError | InvalidPilot | InvalidRefined | InvalidFinal | MissingEstimate

  datatype Settings = Settings(refinementUs: real, minRefinement: nat, maxRefinement: nat)

  datatype Policy = Policy(groupSize: nat, pilot: Option<Pruning>, refined: Option<Pruning>, settings: Settings) {
    predicate Valid() { groupSize >= 1 && ValidRule(pilot) && ValidRule(refined) }
  }

  function Least(trials: seq<real>): (m: real)
    requires trials != []
    ensures IsLeast(m, trials)
  {
    if |trials| == 1 then trials[0]
    else
      var rest := Least(trials[1..]);
      assert trials == [trials[0]] + trials[1..];
      if trials[0] <= rest then trials[0] else rest
  }

  predicate IsLeast(m: real, trials: seq<real>) {
    m in trials && forall t :: t in trials ==> m <= t
  }

  /** The number of refinement trials that fill the refinement budget. */
  function RefinementTrials(s: Settings, pilot: real): int
    requires pilot > 0.0
  {
    var n := -(-(s.refinementUs / pilot)).Floor;
    if n <= s.maxRefinement then n else s.maxRefinement
  }

  /** Enough trials to fill the refinement budget, up to the maximum. */
  lemma RefinementTrialsMeaning(s: Settings, pilot: real)
    requires pilot > 0.0
    ensures
      var n := RefinementTrials(s, pilot);
      && n <= s.maxRefinement
      && (n < s.maxRefinement ==> n as real * pilot >= s.refinementUs)
      && (n - 1) as real * pilot < s.refinementUs
  {
    var n, ratio := RefinementTrials(s, pilot), s.refinementUs / pilot;
    var whole, less := -(-ratio).Floor, (n - 1) as real;
    assert ratio * pilot == s.refinementUs;
    assert less < ratio;
    assert (ratio - less) * pilot == ratio * pilot - less * pilot;
    assert (ratio - less) * pilot > 0.0;
    assert less * pilot < s.refinementUs;
    if n < s.maxRefinement {
      assert (n as real - ratio) * pilot == n as real * pilot - ratio * pilot;
      assert (n as real - ratio) * pilot >= 0.0;
    }
  }

  /** All but one of the least number of refinement trials do not fill the budget, and so many are allowed. */
  predicate Refines(s: Settings, pilot: real) {
    s.minRefinement <= s.maxRefinement && (s.minRefinement - 1) as real * pilot < s.refinementUs
  }

  /** Exactly then is the number of refinement trials enough. */
  lemma RefinesExactly(s: Settings, pilot: real)
    requires pilot > 0.0
    ensures RefinementTrials(s, pilot) >= s.minRefinement <==> Refines(s, pilot)
  {
    var n, least := RefinementTrials(s, pilot), s.minRefinement;
    RefinementTrialsMeaning(s, pilot);
    if n >= least {
      FewerTakeLess(least - 1, n - 1, pilot);
    } else if n < s.maxRefinement {
      FewerTakeLess(n, least - 1, pilot);
    }
  }

  lemma FewerTakeLess(a: int, b: int, each: real)
    requires a <= b && each > 0.0
    ensures a as real * each <= b as real * each
  {
    assert b as real * each - a as real * each == (b - a) as real * each;
  }

  // ------------------------------------------------------------- row facts

  /** Only rows with a prepared candidate are ever measured; ids identify rows. */
  ghost predicate WellFormed(rows: seq<Row>, entries: set<nat>) {
    && InRange(rows, entries)
    && (forall i: nat :: i < |rows| && i !in entries ==> rows[i].status != Measured)
    && DistinctIds(rows)
  }

  predicate Validated(r: Row) {
    r.evaluation.Passed? || r.evaluation.Skipped?
  }

  datatype Field = PilotField | RefinedField

  function Timing(r: Row, field: Field): Option<real> {
    match field case PilotField => r.pilot case RefinedField => r.refined
  }

  ghost predicate Timed(rows: seq<Row>, field: Field) {
    forall i :: 0 <= i < |rows| && rows[i].status == Measured ==> Timing(rows[i], field).Some?
  }

  /** The timings of the measured rows. */
  function MeasuredTimings(rows: seq<Row>, field: Field): (m: seq<real>)
    requires Timed(rows, field)
    ensures forall t :: t in m ==>
      exists i :: 0 <= i < |rows| && rows[i].status == Measured && Timing(rows[i], field) == Some(t)
    ensures forall i :: 0 <= i < |rows| && rows[i].status == Measured ==> Timing(rows[i], field).value in m
  {
    if rows == [] then []
    else
      var init, last := rows[..|rows| - 1], rows[|rows| - 1];
      var rest := MeasuredTimings(init, field);
      assert forall i :: 0 <= i < |init| ==> init[i] == rows[i];
      if last.status == Measured then rest + [Timing(last, field).value] else rest
  }

  /** The ids retained: every measured row within the limit set by the best measured row. */
  function PruneTimings(rows: seq<Row>, field: Field, rule: Option<Pruning>): (keep: set<Id>)
    requires Timed(rows, field)
  {
    var valid := MeasuredTimings(rows, field);
    if valid == [] then {}
    else
      var limit := Limit(Least(valid), rule);
      set r | r in rows && r.status == Measured && Within(Timing(r, field).value, limit) :: r.id
  }

  ghost predicate DistinctIds(rows: seq<Row>) {
    forall i, j :: 0 <= i < j < |rows| ==> rows[i].id != rows[j].id
  }

  /** A best measured row sets the limit, and is itself retained. */
  lemma KeepMeans(rows: seq<Row>, field: Field, rule: Option<Pruning>, k: nat)
    requires ValidRule(rule) && Timed(rows, field) && DistinctIds(rows)
    requires k < |rows| && rows[k].status == Measured
    requires forall i :: 0 <= i < |rows| && rows[i].status == Measured ==>
      Timing(rows[k], field).value <= Timing(rows[i], field).value
    ensures forall i :: 0 <= i < |rows| ==>
      (rows[i].id in PruneTimings(rows, field, rule) <==>
       rows[i].status == Measured && Within(Timing(rows[i], field).value, Limit(Timing(rows[k], field).value, rule)))
    ensures rows[k].id in PruneTimings(rows, field, rule)
  {
    var valid := MeasuredTimings(rows, field);
    var best := Timing(rows[k], field).value;
    assert Least(valid) == best;
    forall i | 0 <= i < |rows|
      ensures rows[i].id in PruneTimings(rows, field, rule) <==>
        rows[i].status == Measured && Within(Timing(rows[i], field).value, Limit(best, rule))
    {
      if rows[i].id in PruneTimings(rows, field, rule) {
        var r :| r in rows && r.status == Measured && Within(Timing(r, field).value, Limit(best, rule)) &&
          r.id == rows[i].id;
        var j :| 0 <= j < |rows| && rows[j] == r;
        assert i == j;
      }
    }
  }

  lemma NothingKept(rows: seq<Row>, field: Field, rule: Option<Pruning>)
    requires forall i: nat :: i < |rows| ==> rows[i].status != Measured
    ensures PruneTimings(rows, field, rule) == {}
  {
  }

  // ------------------------------------------------------------------- sort

  ghost predicate Sortable(rows: seq<Row>, s: seq<nat>) {
    forall k :: 0 <= k < |s| ==> s[k] < |rows| && rows[s[k]].refined.Some?
  }

  ghost predicate Ascending(rows: seq<Row>, s: seq<nat>)
    requires Sortable(rows, s)
  {
    forall a, b :: 0 <= a < b < |s| ==> rows[s[a]].refined.value <= rows[s[b]].refined.value
  }

  function RefinedOf(rows: seq<Row>, i: nat): real {
    if i < |rows| && rows[i].refined.Some? then rows[i].refined.value else 0.0
  }

  /** The order of row positions by refined timing. */
  function ByRefined(rows: seq<Row>): (nat, nat) -> bool {
    (i: nat, j: nat) => RefinedOf(rows, i) <= RefinedOf(rows, j)
  }

  /** A stable sort of row positions by refined timing. */
  function SortByRefined(rows: seq<Row>, s: seq<nat>): (r: seq<nat>)
    requires Sortable(rows, s)
    ensures Sortable(rows, r) && Ascending(rows, r)
    ensures multiset(r) == multiset(s)
  {
    var r := Sorting.SortBy(ByRefined(rows), s);
    SortedRefined(rows, s, r);
    r
  }

  lemma SortedRefined(rows: seq<Row>, s: seq<nat>, r: seq<nat>)
    requires Sortable(rows, s) && r == Sorting.SortBy(ByRefined(rows), s)
    ensures Sortable(rows, r) && Ascending(rows, r)
  {
    assert Sorting.TotalOrder(ByRefined(rows));
    Sorting.SortedBy(ByRefined(rows), s);
    forall k | 0 <= k < |r| ensures r[k] < |rows| && rows[r[k]].refined.Some? {
      assert r[k] in multiset(s);
    }
    forall a, b | 0 <= a < b < |r| ensures rows[r[a]].refined.value <= rows[r[b]].refined.value {
      assert ByRefined(rows)(r[a], r[b]);
    }
  }

  lemma SortedMembers(s: seq<nat>, r: seq<nat>)
    requires multiset(r) == multiset(s) && Distinct(s)
    ensures Distinct(r) && Members(r) == Members(s)
  {
    forall i ensures i in r <==> i in s {
      assert i in multiset(r) <==> i in multiset(s);
    }
    PermutationDistinct(s, r);
  }

  // ------------------------------------------------------------- row facts

  ghost predicate InRange(rows: seq<Row>, some: set<nat>) {
    forall i :: i in some ==> i < |rows|
  }

  /** Rows outside `some` are as they were, and no row changes its identity. */
  ghost predicate OnlyTouched(before: seq<Row>, after: seq<Row>, some: set<nat>) {
    && |after| == |before|
    && (forall i: nat :: i < |after| ==> after[i].id == before[i].id)
    && forall i: nat :: i < |after| && i !in some ==> after[i] == before[i]
  }

  function Passing(r: Row, world: World): Row {
    r.(evaluation := if world.evaluator.None? then Skipped else Passed)
  }

  function Failing(r: Row): Row {
    r.(evaluation := Failed, status := Invalid)
  }

  ghost predicate SameEvaluations(before: seq<Row>, after: seq<Row>) {
    && |after| == |before|
    && forall i: nat :: i < |after| ==> after[i].id == before[i].id && after[i].evaluation == before[i].evaluation
  }

  /** With a deterministic evaluator, a recorded verdict is the verdict. */
  ghost predicate Truthful(rows: seq<Row>, world: World) {
    world.Deterministic() ==> forall i: nat :: i < |rows| ==> TruthfulRow(rows[i], world)
  }

  predicate TruthfulRow(r: Row, world: World) {
    && (Validated(r) ==> world.Accepts(r.id))
    && (r.evaluation.Failed? ==> !world.Accepts(r.id))
  }

  // ------------------------------------------------------------ pilot stage

  /** Every row of `some` has a pilot timing; the best of the measured ones is `best`, and it passed evaluation. */
  ghost predicate PilotBest(rows: seq<Row>, some: set<nat>, best: Option<real>) {
    && (forall i :: i in some ==> i < |rows| && PilotRow(rows[i], best))
    && (best.Some? ==> exists i :: i in some && i < |rows| && PilotWinner(rows[i], best.value))
  }

  predicate PilotRow(r: Row, best: Option<real>) {
    && r.pilot.Some? && r.pilot.value > 0.0 && r.runtime.None?
    && (r.status == Measured || (r.status == Invalid && r.evaluation == Failed))
    && (r.status == Measured ==> best.Some? && best.value <= r.pilot.value)
  }

  predicate PilotWinner(r: Row, best: real) {
    r.status == Measured && Validated(r) && r.pilot == Some(best)
  }

  lemma PilotStep(rows: seq<Row>, some: set<nat>, best: Option<real>, i: nat, row: Row, best': Option<real>)
    requires PilotBest(rows, some, best) && i < |rows| && i !in some
    requires PilotRow(row, best')
    requires
      || best' == best
      || (best'.Some? && PilotWinner(row, best'.value) && (best.Some? ==> best'.value <= best.value))
    ensures PilotBest(rows[i := row], some + {i}, best')
  {
    var rows' := rows[i := row];
    if best'.Some? {
      var w: nat := i;
      if best' == best {
        w :| w in some && w < |rows| && PilotWinner(rows[w], best.value);
      }
      assert PilotWinner(rows'[w], best'.value);
    }
  }

  /** What the pilot rule makes of a row, given the best validated pilot timing. */
  function PilotVerdict(r: Row, best: Option<real>, rule: Option<Pruning>): Row {
    if r.status == Measured && best.Some? && r.pilot.Some? && !Within(r.pilot.value, Limit(best.value, rule))
    then r.(status := PilotPruned) else r
  }

  /** A kept set that agrees with the rule of the best pilot timing. */
  ghost predicate KeepsPilots(rows: seq<Row>, keep: set<Id>, best: Option<real>, rule: Option<Pruning>) {
    forall i: nat :: i < |rows| ==> (rows[i].id in keep <==> PilotVerdict(rows[i], best, rule).status == Measured)
  }

  lemma PilotKept(rows: seq<Row>, keep: set<Id>, best: real, rule: Option<Pruning>)
    requires Timed(rows, PilotField)
    requires forall i: nat :: i < |rows| ==>
      (rows[i].id in keep <==> rows[i].status == Measured && Within(rows[i].pilot.value, Limit(best, rule)))
    ensures KeepsPilots(rows, keep, Some(best), rule)
  {
    forall i: nat | i < |rows| ensures rows[i].id in keep <==>
      PilotVerdict(rows[i], Some(best), rule).status == Measured {
      assert Timing(rows[i], PilotField) == rows[i].pilot;
    }
  }

  lemma PilotKeep(rows: seq<Row>, entries: set<nat>, best: Option<real>, rule: Option<Pruning>)
    requires WellFormed(rows, entries) && PilotBest(rows, entries, best) && ValidRule(rule)
    ensures Timed(rows, PilotField)
    ensures KeepsPilots(rows, PruneTimings(rows, PilotField, rule), best, rule)
  {
    forall i: nat | i < |rows| && rows[i].status == Measured
      ensures rows[i].pilot.Some? && best.Some? && best.value <= rows[i].pilot.value
    {
      assert PilotRow(rows[i], best);
    }
    if best.Some? {
      var w :| w in entries && w < |rows| && PilotWinner(rows[w], best.value);
      KeepMeans(rows, PilotField, rule, w);
      PilotKept(rows, PruneTimings(rows, PilotField, rule), best.value, rule);
    } else {
      NothingKept(rows, PilotField, rule);
    }
  }

  /** The pilot rule was applied to the rows of `some`. */
  ghost predicate PilotsPruned(before: seq<Row>, after: seq<Row>, some: set<nat>, best: Option<real>,
                               rule: Option<Pruning>)
  {
    && OnlyTouched(before, after, some)
    && forall i :: i in some ==> i < |after| && after[i] == PilotVerdict(before[i], best, rule)
  }

  /** The survivors are the entries that are still measured. */
  ghost predicate Survivors(rows: seq<Row>, entries: set<nat>, survivors: set<nat>) {
    && InRange(rows, entries)
    && forall i :: i in survivors <==> i in entries && rows[i].status == Measured
  }

  lemma PrunedTruthful(before: seq<Row>, after: seq<Row>, some: set<nat>, best: Option<real>, rule: Option<Pruning>,
                       world: World)
    requires PilotsPruned(before, after, some, best, rule) && Truthful(before, world)
    ensures Truthful(after, world)
    ensures SameEvaluations(before, after)
  {
    forall i: nat | i < |after| ensures after[i].evaluation == before[i].evaluation && after[i].id == before[i].id {
      assert i in some || after[i] == before[i];
    }
    forall i: nat | i < |after| && world.Deterministic() ensures TruthfulRow(after[i], world) {
      assert TruthfulRow(before[i], world);
    }
  }

  // ---------------------------------------------------------- refined stage

  /** Only the refined timing of the given rows was set. */
  ghost predicate RefinedOnly(before: seq<Row>, after: seq<Row>, some: set<nat>) {
    && OnlyTouched(before, after, some)
    && forall i :: i in some ==>
       i < |after| && after[i].refined.Some? && after[i] == before[i].(refined := after[i].refined)
  }

  lemma RefinedSortable(before: seq<Row>, after: seq<Row>, survivors: seq<nat>)
    requires RefinedOnly(before, after, Members(survivors))
    requires forall i :: i in survivors ==> i < |before| && before[i].status == Measured
    ensures Sortable(after, survivors)
    ensures forall i :: i in survivors ==> after[i].status == Measured
  {
    forall i | i in survivors ensures i < |after| && after[i].refined.Some? && after[i].status == Measured {
      assert i in Members(survivors);
    }
    forall k | 0 <= k < |survivors| ensures survivors[k] < |after| && after[survivors[k]].refined.Some? {
      assert survivors[k] in survivors;
    }
  }

  lemma RefinedTruthful(before: seq<Row>, after: seq<Row>, some: set<nat>, world: World)
    requires RefinedOnly(before, after, some) && Truthful(before, world)
    ensures Truthful(after, world)
    ensures SameEvaluations(before, after)
  {
    forall i: nat | i < |after| ensures after[i].evaluation == before[i].evaluation && after[i].id == before[i].id {
      assert i in some || after[i] == before[i];
    }
    forall i: nat | i < |after| && world.Deterministic() ensures TruthfulRow(after[i], world) {
      assert TruthfulRow(before[i], world);
    }
  }

  /** The survivors were evaluated from the fastest on, until one passed. */
  ghost predicate Proposed(before: seq<Row>, after: seq<Row>, survivors: set<nat>, chosen: Option<nat>,
                           evaluated: set<nat>)
  {
    && |after| == |before|
    && evaluated <= survivors
    && (forall i: nat :: i < |after| && i !in evaluated ==> after[i] == before[i])
    && (forall i :: i in evaluated ==>
          i < |after| && if chosen == Some(i) then Chosen(before[i], after[i]) else after[i] == Failing(before[i]))
    && (chosen.None? ==> evaluated == survivors)
    && (chosen.Some? ==> chosen.value in evaluated && Fastest(before, survivors - evaluated, chosen.value))
  }

  /** None of the other rows is faster. */
  ghost predicate Fastest(rows: seq<Row>, others: set<nat>, c: nat) {
    && c < |rows| && rows[c].refined.Some?
    && forall i :: i in others ==> i < |rows| && rows[i].refined.Some? && rows[c].refined.value <= rows[i].refined.value
  }

  predicate Chosen(before: Row, after: Row) {
    before.status == Measured && Validated(after) && after == before.(evaluation := after.evaluation)
  }

  lemma ProposedFound(start: seq<Row>, before: seq<Row>, after: seq<Row>, order: seq<nat>, k: nat, done: set<nat>,
                      world: World)
    requires Sortable(start, order) && Ascending(start, order)
    requires k < |order| && Visited(order, k, done) && order[k] !in done
    requires Proposed(start, before, done, None, done)
    requires order[k] < |start| && start[order[k]].status == Measured
    requires after == before[order[k] := Passing(before[order[k]], world)]
    ensures Proposed(start, after, Members(order), Some(order[k]), done + {order[k]})
  {
    var evaluated := done + {order[k]};
    forall i | i in Members(order) - evaluated
      ensures i < |start| && start[i].refined.Some? && start[order[k]].refined.value <= start[i].refined.value
    {
      var j :| 0 <= j < |order| && order[j] == i;
    }
  }

  /** The state in which the refined rule is applied. */
  ghost predicate RefinedBest(rows: seq<Row>, survivors: set<nat>, chosen: Option<nat>, evaluated: set<nat>) {
    && InRange(rows, survivors) && DistinctIds(rows)
    && (forall i: nat :: i < |rows| && rows[i].status == Measured ==> i in survivors && rows[i].refined.Some?)
    && (forall i: nat :: i < |rows| && rows[i].status == Measured && i in evaluated ==> chosen == Some(i))
    && (chosen.None? ==> forall i: nat :: i < |rows| ==> rows[i].status != Measured)
    && (chosen.Some? ==>
        && chosen.value in evaluated && Fastest(rows, survivors - evaluated, chosen.value)
        && rows[chosen.value].status == Measured && Validated(rows[chosen.value]))
  }

  /** One survivor, after the refined rule with the kept ids was applied. */
  predicate RefinedOutcome(before: Row, after: Row, kept: bool, evaluated: bool) {
    if before.status != Measured then after == before
    else if !kept then after == before.(status := RefinedPruned)
    else if evaluated then after == before
    else after == Failing(before) || (Validated(after) && after == before.(evaluation := after.evaluation))
  }

  ghost predicate RefinedMarks(before: seq<Row>, after: seq<Row>, some: set<nat>, keep: set<Id>, evaluated: set<nat>) {
    && |after| == |before|
    && (forall i: nat :: i < |after| && i !in some ==> after[i] == before[i])
    && forall i :: i in some ==>
       i < |after| && RefinedOutcome(before[i], after[i], before[i].id in keep, i in evaluated)
  }

  /** A kept set that agrees with the limit set by the row c. */
  ghost predicate KeepsRefined(rows: seq<Row>, keep: set<Id>, c: nat, rule: Option<Pruning>) {
    && c < |rows| && rows[c].refined.Some? && rows[c].id in keep
    && forall i: nat :: i < |rows| ==>
         (rows[i].id in keep <==> rows[i].status == Measured && WithinBase(rows[i], rows[c], rule))
  }

  predicate WithinBase(r: Row, base: Row, rule: Option<Pruning>) {
    r.refined.Some? && base.refined.Some? && Within(r.refined.value, Limit(base.refined.value, rule))
  }

  lemma RefinedKeep(rows: seq<Row>, survivors: set<nat>, chosen: Option<nat>, evaluated: set<nat>,
                    rule: Option<Pruning>)
    requires RefinedBest(rows, survivors, chosen, evaluated) && ValidRule(rule)
    ensures Timed(rows, RefinedField)
    ensures chosen.Some? ==> KeepsRefined(rows, PruneTimings(rows, RefinedField, rule), chosen.value, rule)
  {
    if chosen.Some? {
      KeepMeans(rows, RefinedField, rule, chosen.value);
    }
  }

  // ------------------------------------------------------------- the stages

  /** The rows whose timings set the two limits. */
  datatype Bases = Bases(pilot: Option<nat>, refined: Option<nat>)

  lemma PilotWitness(rows: seq<Row>, entries: set<nat>, best: Option<real>) returns (base: Option<nat>)
    requires PilotBest(rows, entries, best)
    ensures base.Some? <==> best.Some?
    ensures base.Some? ==> base.value in entries && base.value < |rows| && PilotWinner(rows[base.value], best.value)
  {
    base := None;
    if best.Some? {
      var w :| w in entries && w < |rows| && PilotWinner(rows[w], best.value);
      base := Some(w);
    }
  }

  ghost predicate SomeAccepted(rows: seq<Row>, entries: set<nat>, world: World) {
    exists e :: e in entries && e < |rows| && world.Accepts(rows[e].id)
  }

  /** Every entry was examined; only a timing beyond the limit of a base row was pruned. */
  ghost predicate Narrowed(before: seq<Row>, after: seq<Row>, entries: set<nat>, bases: Bases, policy: Policy,
                           world: World)
  {
    && OnlyTouched(before, after, entries)
    && (forall e :: e in entries ==> e < |after| && NarrowedRow(after, after[e], bases, policy))
    && (bases.refined.Some? ==> bases.refined.value in entries && after[bases.refined.value].status == Measured)
    && (world.Deterministic() && SomeAccepted(before, entries, world) ==> bases.refined.Some?)
  }

  /** Measured rows are validated and within the refined limit; pruned rows are beyond the limit that pruned them. */
  ghost predicate NarrowedRow(rows: seq<Row>, r: Row, bases: Bases, policy: Policy) {
    match r.status
    case Measured =>
      Validated(r) && r.pilot.Some? && bases.refined.Some? && bases.refined.value < |rows| &&
        WithinBase(r, rows[bases.refined.value], policy.refined)
    case Invalid => r.evaluation.Failed?
    case PilotPruned =>
      && r.pilot.Some? && bases.pilot.Some? && bases.pilot.value < |rows| && rows[bases.pilot.value].pilot.Some?
      && !Within(r.pilot.value, Limit(rows[bases.pilot.value].pilot.value, policy.pilot))
    case RefinedPruned =>
      && bases.refined.Some? && bases.refined.value < |rows| && r.refined.Some? &&
         rows[bases.refined.value].refined.Some?
      && !WithinBase(r, rows[bases.refined.value], policy.refined)
    case _ => false
  }

  /** The rows after each stage of one narrowing. */
  datatype Stages = Stages(before: seq<Row>, piloted: seq<Row>, pruned: seq<Row>, refined: seq<Row>,
                           proposed: seq<Row>, after: seq<Row>, entries: set<nat>, survivors: set<nat>,
                           best: Option<real>, evaluated: set<nat>, keep: set<Id>, bases: Bases)
  {
    ghost predicate Piloted(policy: Policy) {
      && WellFormed(before, entries)
      && OnlyTouched(before, piloted, entries)
      && PilotBest(piloted, entries, best)
      && (bases.pilot.Some? <==> best.Some?)
      && (bases.pilot.Some? ==>
          bases.pilot.value in entries && bases.pilot.value < |piloted| &&
            PilotWinner(piloted[bases.pilot.value], best.value))
      && PilotsPruned(piloted, pruned, entries, best, policy.pilot)
      && Survivors(pruned, entries, survivors)
    }

    ghost predicate Follow(policy: Policy) {
      && Piloted(policy)
      && RefinedOnly(pruned, refined, survivors)
      && Proposed(refined, proposed, survivors, bases.refined, evaluated)
      && (bases.refined.Some? ==> KeepsRefined(proposed, keep, bases.refined.value, policy.refined))
      && RefinedMarks(proposed, after, survivors, keep, evaluated)
    }

    /** After the pilot prune, the measured rows are the survivors, and they have pilot timings. */
    lemma Survive(policy: Policy)
      requires Piloted(policy) && policy.Valid()
      ensures InRange(pruned, survivors)
      ensures forall i: nat :: i < |pruned| ==> pruned[i].id == before[i].id
      ensures forall i: nat :: i < |pruned| && pruned[i].status == Measured ==> i in survivors
      ensures forall i :: i in survivors ==>
        && i in entries && pruned[i] == piloted[i] && pruned[i].pilot.Some? && pruned[i].pilot.value > 0.0
        && pruned[i].runtime.None?
      ensures bases.pilot.Some? ==> bases.pilot.value in survivors
    {
      forall i: nat | i < |pruned| && pruned[i].status == Measured ensures i in survivors {
        assert i in entries;
      }
    }

    /** Once a refined best was proposed, the refined rule is applied to a consistent state. */
    lemma Propose(policy: Policy)
      requires Piloted(policy) && policy.Valid()
      requires RefinedOnly(pruned, refined, survivors)
      requires Proposed(refined, proposed, survivors, bases.refined, evaluated)
      ensures RefinedBest(proposed, survivors, bases.refined, evaluated)
    {
      Survive(policy);
      forall i: nat | i < |proposed|
        ensures proposed[i].id == before[i].id && proposed[i].refined == refined[i].refined
        ensures proposed[i].status == Measured ==> i in survivors && (i in evaluated ==> bases.refined == Some(i))
      {
        assert i in evaluated || proposed[i] == refined[i];
        assert i in survivors || refined[i] == pruned[i];
      }
    }

    lemma EntryNarrowed(policy: Policy, e: nat)
      requires Follow(policy) && policy.Valid() && e in entries
      ensures e < |after| && NarrowedRow(after, after[e], bases, policy)
      ensures after[e].pilot == piloted[e].pilot
    {
      Survive(policy);
      Kept(policy, e);
      if bases.refined.Some? {
        Kept(policy, bases.refined.value);
      }
      if bases.pilot.Some? {
        Kept(policy, bases.pilot.value);
      }
    }

    /** The timings of a row are never taken back. */
    lemma Kept(policy: Policy, e: nat)
      requires Follow(policy) && e in entries
      ensures e < |after| == |proposed| == |refined| == |pruned| == |piloted|
      ensures after[e].pilot == piloted[e].pilot && after[e].refined == proposed[e].refined == refined[e].refined
      ensures e !in survivors ==> after[e] == pruned[e]
      ensures e in survivors && e !in evaluated ==>
        proposed[e] == refined[e] && refined[e] == pruned[e].(refined := refined[e].refined)
    {
    }

    /** With a deterministic evaluator, some accepted entry makes a refined best. */
    lemma Survives(policy: Policy, world: World)
      requires Follow(policy) && policy.Valid()
      requires Truthful(piloted, world) && Truthful(proposed, world)
      requires world.Deterministic() && SomeAccepted(before, entries, world)
      ensures bases.refined.Some?
    {
      var e: nat :| e in entries && e < |before| && world.Accepts(before[e].id);
      Survive(policy);
      assert PilotRow(piloted[e], best) && TruthfulRow(piloted[e], world);
      var w := bases.pilot.value;
      assert TruthfulRow(piloted[w], world) && TruthfulRow(proposed[w], world);
    }

    lemma Narrow(policy: Policy, world: World)
      requires Follow(policy) && policy.Valid()
      requires Truthful(piloted, world) && Truthful(proposed, world)
      ensures Narrowed(before, after, entries, bases, policy, world)
    {
      Survive(policy);
      forall e | e in entries ensures e < |after| && NarrowedRow(after, after[e], bases, policy) {
        EntryNarrowed(policy, e);
      }
      forall i: nat | i < |after| ensures after[i].id == before[i].id && (i !in entries ==> after[i] == before[i]) {
        assert i in survivors || (after[i] == proposed[i] && refined[i] == pruned[i]);
        assert i in evaluated || proposed[i] == refined[i];
      }
      if world.Deterministic() && SomeAccepted(before, entries, world) {
        Survives(policy, world);
      }
    }
  }

  // ------------------------------------------------------------ final stage

  /** All stages, or only the final one with estimates that may be supplied. */
  datatype Mode = Staged | FinalOnly(estimates: Option<map<Id, real>>)

  function ModeOf(finalOnly: bool, estimates: Option<map<Id, real>>): Mode {
    if finalOnly then FinalOnly(estimates) else Staged
  }

  /** A row before and after the final stage. */
  ghost predicate FinishedRow(before: Row, after: Row, mode: Mode, world: World) {
    && after.id == before.id
    && (after.status == Measured ==> after.runtime.Some? && after.runtime.value > 0.0)
    && match mode
       case Staged => after == before.(runtime := after.runtime)
       case FinalOnly(estimates) =>
         || (after.status == Measured && Validated(after) && world.Estimated(after, estimates))
         || (after.status == Invalid && after.evaluation.Failed?)
  }

  ghost predicate Finished(before: seq<Row>, after: seq<Row>, some: set<nat>, mode: Mode, world: World) {
    && |after| == |before|
    && (forall i: nat :: i < |after| && i !in some ==> after[i] == before[i])
    && forall i :: i in some ==> i < |after| && FinishedRow(before[i], after[i], mode, world)
  }

  /** Every measured row passed evaluation (unless there is none to pass) and has a positive final timing. */
  ghost predicate Reported(rows: seq<Row>) {
    forall i: nat :: i < |rows| && rows[i].status == Measured ==>
      Validated(rows[i]) && rows[i].runtime.Some? && rows[i].runtime.value > 0.0
  }

  ghost predicate BestRow(rows: seq<Row>, best: Row) {
    && best in rows && best.status == Measured && best.runtime.Some?
    && forall i: nat :: i < |rows| && rows[i].status == Measured ==>
       rows[i].runtime.Some? && best.runtime.value <= rows[i].runtime.value
  }

  lemma NarrowedRefined(before: seq<Row>, after: seq<Row>, entries: set<nat>, bases: Bases, policy: Policy,
                        world: World)
    requires WellFormed(before, entries) && Narrowed(before, after, entries, bases, policy, world)
    ensures InRange(after, entries)
    ensures forall i: nat :: i < |after| && after[i].status == Measured ==>
      i in entries && after[i].pilot.Some? && after[i].refined.Some?
  {
    forall i: nat | i < |after| && after[i].status == Measured ensures i in entries && after[i].pilot.Some? &&
      after[i].refined.Some? {
      if i in entries {
        assert NarrowedRow(after, after[i], bases, policy);
      }
    }
  }

  lemma FinishKeepsNarrowed(before: seq<Row>, narrowed: seq<Row>, after: seq<Row>, entries: set<nat>,
                            bases: Bases, policy: Policy, world: World)
    requires WellFormed(before, entries) && Narrowed(before, narrowed, entries, bases, policy, world)
    requires Finished(narrowed, after, entries, Staged, world)
    ensures Narrowed(before, after, entries, bases, policy, world) && Reported(after)
  {
    forall i: nat | i < |after|
      ensures after[i] == narrowed[i].(runtime := after[i].runtime)
    {
      assert i in entries || after[i] == narrowed[i];
    }
    forall i: nat | i < |after|
      ensures i in entries ==> NarrowedRow(after, after[i], bases, policy)
      ensures after[i].status == Measured ==> i in entries && Validated(after[i])
    {
      if i in entries {
        assert NarrowedRow(narrowed, narrowed[i], bases, policy);
      }
    }
  }

  // ---------------------------------------------------------------- session

  /** What the outside world answers: verdicts by evaluation count, trials by candidate, final timings by estimate. */
  datatype World = World(evaluator: Option<(nat, Id) -> Verdict>,
                         pilotTrials: Id -> seq<real>, refinedTrials: (Id, int) -> seq<real>,
                         estimateTrials: Id -> seq<real>, finalRuntime: (Id, real) -> real)
  {
    ghost predicate Valid() {
      && (forall id: Id :: pilotTrials(id) != [] && estimateTrials(id) != [])
      && forall id: Id, n: int :: refinedTrials(id, n) != []
    }

    /** Of the evaluations made so far, the n-th of the n-th id asked, one of this id had this verdict. */
    ghost predicate Heard(asked: seq<Id>, id: Id, verdict: Verdict)
      requires evaluator.Some?
    {
      asked != [] &&
        var n := |asked| - 1;
        || (asked[n] == id && evaluator.value(n, id) == verdict)
        || Heard(asked[..n], id, verdict)
    }

    lemma {:induction false} HeardMeans(asked: seq<Id>, id: Id, verdict: Verdict)
      requires evaluator.Some?
      ensures Heard(asked, id, verdict) <==>
        exists n: nat :: n < |asked| && asked[n] == id && evaluator.value(n, asked[n]) == verdict
    {
      if asked != [] {
        var last := |asked| - 1;
        HeardMeans(asked[..last], id, verdict);
        if n: nat :| n < |asked| && asked[n] == id && evaluator.value(n, asked[n]) == verdict {
          assert n < last ==> asked[..last][n] == id && evaluator.value(n, asked[..last][n]) == verdict;
        }
        if Heard(asked[..last], id, verdict) {
          var n: nat :| n < last && asked[..last][n] == id && evaluator.value(n, asked[..last][n]) == verdict;
          assert asked[n] == id && evaluator.value(n, asked[n]) == verdict;
        }
      }
    }

    lemma HeardNext(asked: seq<Id>, next: Id)
      requires evaluator.Some?
      ensures Heard(asked + [next], next, evaluator.value(|asked|, next))
      ensures forall id, verdict :: Heard(asked, id, verdict) ==> Heard(asked + [next], id, verdict)
    {
      assert (asked + [next])[..|asked|] == asked;
    }

    ghost predicate Deterministic() {
      evaluator.Some? ==> forall n: nat, id: Id :: evaluator.value(n, id) == evaluator.value(0, id)
    }

    predicate Accepts(id: Id) {
      evaluator.Some? ==> evaluator.value(0, id) == Accept
    }

    /** Verdicts are booleans, and all timings are positive. */
    ghost predicate Healthy() {
      && (evaluator.Some? ==> forall n: nat, id: Id :: evaluator.value(n, id) != NotABool)
      && forall id: Id :: PositiveTimings(id)
    }

    ghost predicate PositiveTimings(id: Id) {
      && (forall t :: t in pilotTrials(id) ==> t > 0.0) && (forall t :: t in estimateTrials(id) ==> t > 0.0)
      && (forall n: int, t :: t in refinedTrials(id, n) ==> t > 0.0) && forall e: real :: finalRuntime(id, e) > 0.0
    }

    /**
     The timings of a row are those of its candidate. The refined one is the least of its
     refined trials if these are enough, and the pilot timing otherwise; the final one was
     measured with it.
     */
    ghost predicate Genuine(r: Row, s: Settings) {
      && (r.pilot.Some? ==> r.pilot.value > 0.0 && IsLeast(r.pilot.value, pilotTrials(r.id)))
      && (r.pilot.Some? && r.refined.Some? ==>
            if Refines(s, r.pilot.value)
            then IsLeast(r.refined.value, refinedTrials(r.id, RefinementTrials(s, r.pilot.value)))
            else r.refined == r.pilot)
      && (r.runtime.Some? ==> r.refined.Some? && r.runtime.value == finalRuntime(r.id, r.refined.value))
    }

    /** What a final-only run takes as the estimate: the supplied one, or the least of its own trials. */
    predicate Estimated(r: Row, estimates: Option<map<Id, real>>) {
      && r.refined.Some?
      && match estimates
         case Some(given) => r.id in given && given[r.id] == r.refined.value
         case None => IsLeast(r.refined.value, estimateTrials(r.id))
    }
  }

  lemma HealthyTimings(world: World, id: Id, n: int, e: real)
    requires world.Valid() && world.Healthy()
    ensures forall t :: t in world.pilotTrials(id) || t in world.estimateTrials(id) ==> t > 0.0
    ensures forall t :: t in world.refinedTrials(id, n) ==> t > 0.0
    ensures world.finalRuntime(id, e) > 0.0
  {
    assert world.PositiveTimings(id);
  }

  /** Rows that have no timings yet. */
  ghost predicate Unmeasured(rows: seq<Row>, some: set<nat>) {
    forall i :: i in some && i < |rows| ==> rows[i].pilot.None? && rows[i].refined.None? && rows[i].runtime.None?
  }

  /** Supplied estimates are positive and complete. */
  ghost predicate EstimatesOk(estimates: Option<map<Id, real>>, rows: seq<Row>, some: set<nat>) {
    estimates.Some? ==> forall i :: i in some && i < |rows| ==>
      rows[i].id in estimates.value && estimates.value[rows[i].id] > 0.0
  }

  ghost predicate AllGenuine(rows: seq<Row>, world: World, s: Settings) {
    forall i: nat :: i < |rows| ==> world.Genuine(rows[i], s)
  }

  lemma PrunedGenuine(before: seq<Row>, after: seq<Row>, some: set<nat>, best: Option<real>, rule: Option<Pruning>,
                      world: World, s: Settings)
    requires PilotsPruned(before, after, some, best, rule) && AllGenuine(before, world, s)
    ensures AllGenuine(after, world, s)
  {
    forall i: nat | i < |after|
      ensures world.Genuine(after[i], s)
    {
      assert world.Genuine(before[i], s);
      assert i in some || after[i] == before[i];
    }
  }

  class Session {
    const world: World
    const policy: Policy
    var rows: seq<Row>
    /** The ids of the candidates that were evaluated, in order. */
    var asked: seq<Id>
    /** The ids that passed an evaluation at some point, and those that failed one. */
    ghost var validated: set<Id>
    ghost var rejected: set<Id>

    constructor (world: World, policy: Policy, rows: seq<Row>)
      requires world.Valid() && policy.Valid()
      requires forall r :: r in rows ==> r.evaluation.NotEvaluated? && r.pilot.None? && r.runtime.None?
      ensures this.world == world && this.policy == policy && this.rows == rows
      ensures Valid()
    {
      this.world, this.policy, this.rows, asked, validated, rejected := world, policy, rows, [], {}, {};
    }

    ghost predicate Valid()
      reads this
    {
      && world.Valid() && policy.Valid()
      && Truthful(rows, world) && AllGenuine(rows, world, policy.settings)
      && Backed() && AllRecorded(rows)
    }

    ghost predicate AllRecorded(rows: seq<Row>)
      reads this`validated, this`rejected
    {
      forall i: nat :: i < |rows| ==> Recorded(rows[i])
    }

    lemma StillRecorded(before: seq<Row>, after: seq<Row>)
      requires SameEvaluations(before, after) && AllRecorded(before)
      ensures AllRecorded(after)
    {
    }

    /** What a row says about its evaluation is on record. */
    ghost predicate Recorded(r: Row)
      reads this`validated, this`rejected
    {
      (Validated(r) ==> r.id in validated) && (r.evaluation.Failed? ==> r.id in rejected)
    }

    /** The evaluator accepted every validated candidate when it was asked about it, and rejected every rejected one. */
    ghost predicate Backed()
      reads this`asked, this`validated, this`rejected
    {
      world.evaluator.Some? ==>
        && (forall id :: id in validated ==> world.Heard(asked, id, Accept))
        && forall id :: id in rejected ==> world.Heard(asked, id, Reject)
    }

    /** Evaluates one row; the verdict is recorded in it. */
    method Check(i: nat) returns (r: Result<bool, Error>)
      requires Valid() && i < |rows|
      modifies this
      ensures world.Healthy() ==> r.Success?
      ensures r.Success? ==> Valid() && validated >= old(validated)
      ensures r.Success? && r.value ==> old(rows)[i].id in validated
      ensures r.Success? && r.value ==>
        rows == old(rows)[i := old(rows)[i].(evaluation := if world.evaluator.None? then Skipped else Passed)]
      ensures r.Success? && !r.value ==> rows == old(rows)[i := old(rows)[i].(evaluation := Failed, status := Invalid)]
      ensures world.evaluator.None? ==> r == Success(true) && asked == old(asked)
      ensures world.evaluator.Some? ==>
        && asked == old(asked) + [old(rows)[i].id]
        && r == match world.evaluator.value(|old(asked)|, old(rows)[i].id)
                case NotABool => Failure(NotABoolError)
                case Accept => Success(true)
                case Reject => Success(false)
    {
      if world.evaluator.None? {
        rows := rows[i := Passing(rows[i], world)];
        validated := validated + {rows[i].id};
        return Success(true);
      }
      var id := rows[i].id;
      var verdict := world.evaluator.value(|asked|, id);
      world.HeardNext(asked, id);
      asked := asked + [id];
      match verdict
      case NotABool =>
        return Failure(NotABoolError);
      case Accept =>
        rows := rows[i := Passing(rows[i], world)];
        validated := validated + {id};
        return Success(true);
      case Reject =>
        rows := rows[i := Failing(rows[i])];
        rejected := rejected + {id};
        return Success(false);
    }

    /** Records the pilot timing of one row. */
    method PilotTime(i: nat) returns (r: Result<real, Error>)
      requires Valid() && i < |rows| && Unmeasured(rows, {i})
      modifies this`rows
      ensures world.Healthy() ==> r.Success?
      ensures r.Success? ==> Valid() && r.value > 0.0
      ensures r.Success? ==> rows == old(rows)[i := old(rows)[i].(status := Measured, pilot := Some(r.value))]
    {
      var runtime := Least(world.pilotTrials(rows[i].id));
      if world.Healthy() {
        HealthyTimings(world, rows[i].id, 0, runtime);
      }
      if runtime <= 0.0 {
        return Failure(InvalidPilot);
      }
      rows := rows[i := rows[i].(status := Measured, pilot := Some(runtime))];
      return Success(runtime);
    }

    /** Records one pilot timing, and validates the row when it would become the best. */
    method PilotResult(i: nat, best: Option<real>, ghost done: set<nat>) returns (r: Result<Option<real>, Error>)
      requires Valid() && PilotBest(rows, done, best) && i < |rows| && i !in done && Unmeasured(rows, {i})
      modifies this
      ensures world.Healthy() ==> r.Success?
      ensures r.Success? ==> Valid() && PilotBest(rows, done + {i}, r.value)
      ensures r.Success? ==> validated >= old(validated) && OnlyTouched(old(rows), rows, {i})
    {
      var timed := PilotTime(i);
      if timed.Failure? {
        return Failure(timed.error);
      }
      r := PilotCheck(i, timed.value, best);
      if r.Success? {
        PilotStep(old(rows), done, best, i, rows[i], r.value);
        assert rows == old(rows)[i := rows[i]];
      }
    }

    /** Validates a row whose pilot timing would be the best; returns the best of those that passed. */
    method PilotCheck(i: nat, runtime: real, best: Option<real>) returns (r: Result<Option<real>, Error>)
      requires Valid() && i < |rows| && rows[i].status == Measured && rows[i].pilot == Some(runtime) && runtime > 0.0
      requires rows[i].runtime.None?
      modifies this
      ensures world.Healthy() ==> r.Success?
      ensures r.Success? ==> Valid() && validated >= old(validated)
      ensures r.Success? ==> |rows| == |old(rows)| && rows == old(rows)[i := rows[i]] && rows[i].id == old(rows)[i].id
      ensures r.Success? ==> PilotRow(rows[i], r.value)
      ensures r.Success? ==>
        || r.value == best
        || (r.value.Some? && PilotWinner(rows[i], r.value.value) && (best.Some? ==> r.value.value <= best.value))
    {
      if best.Some? && best.value <= runtime {
        return Success(best);
      }
      var passed := Check(i);
      if passed.Failure? {
        return Failure(passed.error);
      }
      return Success(if passed.value then Some(runtime) else best);
    }

    /** The pilot stage, group by group. */
    method Pilot(entries: seq<nat>) returns (r: Result<Option<real>, Error>)
      requires Valid() && Distinct(entries) && InRange(rows, Members(entries)) && Unmeasured(rows, Members(entries))
      modifies this
      ensures world.Healthy() ==> r.Success?
      ensures r.Success? ==> Valid() && PilotBest(rows, Members(entries), r.value)
      ensures r.Success? ==> validated >= old(validated) && OnlyTouched(old(rows), rows, Members(entries))
    {
      var best: Option<real> := None;
      var k := 0;
      ghost var done: set<nat> := {};
      while k < |entries|
        invariant k <= |entries| && Visited(entries, k, done)
        invariant Valid() && PilotBest(rows, done, best)
        invariant validated >= old(validated) && OnlyTouched(old(rows), rows, done)
        decreases |entries| - k
      {
        var stop := if k + policy.groupSize <= |entries| then k + policy.groupSize else |entries|;
        while k < stop
          invariant k <= stop <= |entries| && Visited(entries, k, done)
          invariant Valid() && PilotBest(rows, done, best)
          invariant validated >= old(validated) && OnlyTouched(old(rows), rows, done)
        {
          VisitNext(entries, k, done);
          assert rows[entries[k]] == old(rows)[entries[k]];
          var result := PilotResult(entries[k], best, done);
          if result.Failure? {
            return Failure(result.error);
          }
          best := result.value;
          done := done + {entries[k]};
          k := k + 1;
        }
      }
      VisitedAll(entries, done);
      return Success(best);
    }

    method PilotsToKeep(ghost entries: set<nat>, ghost best: Option<real>) returns (keep: set<Id>)
      requires policy.Valid() && WellFormed(rows, entries) && PilotBest(rows, entries, best)
      ensures KeepsPilots(rows, keep, best, policy.pilot)
    {
      PilotKeep(rows, entries, best, policy.pilot);
      keep := PruneTimings(rows, PilotField, policy.pilot);
    }

    /** Prunes against the best pilot timing; returns the rows that go on. */
    method PrunePilots(entries: seq<nat>, best: Option<real>) returns (survivors: seq<nat>)
      requires Valid() && Distinct(entries) && WellFormed(rows, Members(entries)) &&
        PilotBest(rows, Members(entries), best)
      modifies this`rows
      ensures Valid() && PilotsPruned(old(rows), rows, Members(entries), best, policy.pilot)
      ensures Distinct(survivors) && Survivors(rows, Members(entries), Members(survivors))
    {
      var keep := PilotsToKeep(Members(entries), best);
      survivors := MarkPilots(entries, keep, best);
      PrunedValid(old(rows), Members(entries), best);
    }

    lemma PrunedValid(before: seq<Row>, some: set<nat>, best: Option<real>)
      requires world.Valid() && policy.Valid() && Backed() && PilotsPruned(before, rows, some, best, policy.pilot)
      requires Truthful(before, world) && AllGenuine(before, world, policy.settings) && AllRecorded(before)
      ensures Valid()
    {
      PrunedTruthful(before, rows, some, best, policy.pilot, world);
      PrunedGenuine(before, rows, some, best, policy.pilot, world, policy.settings);
      StillRecorded(before, rows);
    }

    method MarkPilots(entries: seq<nat>, keep: set<Id>, ghost best: Option<real>) returns (survivors: seq<nat>)
      requires Distinct(entries) && InRange(rows, Members(entries))
      requires KeepsPilots(rows, keep, best, policy.pilot)
      modifies this`rows
      ensures PilotsPruned(old(rows), rows, Members(entries), best, policy.pilot)
      ensures Distinct(survivors) && Survivors(rows, Members(entries), Members(survivors))
    {
      survivors := [];
      var k := 0;
      ghost var done: set<nat> := {};
      while k < |entries|
        invariant k <= |entries| && Visited(entries, k, done)
        invariant PilotsPruned(old(rows), rows, done, best, policy.pilot)
        invariant Distinct(survivors) && forall i :: i in survivors <==> i in done && rows[i].status == Measured
      {
        var i := entries[k];
        VisitNext(entries, k, done);
        if rows[i].id in keep {
          survivors := survivors + [i];
        } else if rows[i].status == Measured {
          rows := rows[i := rows[i].(status := PilotPruned)];
        }
        done := done + {i};
        k := k + 1;
      }
      VisitedAll(entries, done);
    }

    /** Gives one row a refined timing; a slow kernel keeps its pilot timing. */
    method RefineRow(i: nat)
      requires world.Valid() && i < |rows| && AllGenuine(rows, world, policy.settings)
      requires rows[i].pilot.Some? && rows[i].pilot.value > 0.0 && rows[i].runtime.None?
      modifies this`rows
      ensures AllGenuine(rows, world, policy.settings)
      ensures |rows| == |old(rows)| && rows[i].refined.Some?
      ensures rows == old(rows)[i := old(rows)[i].(refined := rows[i].refined)]
    {
      assert world.Genuine(rows[i], policy.settings);
      var n := RefinementTrials(policy.settings, rows[i].pilot.value);
      RefinesExactly(policy.settings, rows[i].pilot.value);
      var refined := if n >= policy.settings.minRefinement then Least(world.refinedTrials(rows[i].id, n))
        else rows[i].pilot.value;
      rows := rows[i := rows[i].(refined := Some(refined))];
    }

    /** Gives every survivor a refined timing, group by group; a slow kernel keeps its pilot timing. */
    method Refine(survivors: seq<nat>)
      requires Valid() && Distinct(survivors) && InRange(rows, Members(survivors))
      requires forall i :: i in survivors ==>
        rows[i].pilot.Some? && rows[i].pilot.value > 0.0 && rows[i].runtime.None?
      modifies this`rows
      ensures Valid() && RefinedOnly(old(rows), rows, Members(survivors))
    {
      var k := 0;
      ghost var done: set<nat> := {};
      while k < |survivors|
        invariant k <= |survivors| && Visited(survivors, k, done)
        invariant RefinedOnly(old(rows), rows, done) && AllGenuine(rows, world, policy.settings)
        decreases |survivors| - k
      {
        var stop := if k + policy.groupSize <= |survivors| then k + policy.groupSize else |survivors|;
        while k < stop
          invariant k <= stop <= |survivors| && Visited(survivors, k, done)
          invariant RefinedOnly(old(rows), rows, done) && AllGenuine(rows, world, policy.settings)
        {
          var i := survivors[k];
          VisitNext(survivors, k, done);
          assert i in survivors;
          RefineRow(i);
          done := done + {i};
          k := k + 1;
        }
      }
      VisitedAll(survivors, done);
      RefinedTruthful(old(rows), rows, Members(survivors), world);
      StillRecorded(old(rows), rows);
    }

    /** Evaluates rows in the given order, until one passes. */
    method ValidateInOrder(order: seq<nat>) returns (r: Result<Option<nat>, Error>, evaluated: set<nat>)
      requires Valid() && Distinct(order) && Sortable(rows, order) && Ascending(rows, order)
      requires forall i :: i in order ==> rows[i].status == Measured
      modifies this
      ensures world.Healthy() ==> r.Success?
      ensures r.Success? ==> Valid() && validated >= old(validated)
      ensures r.Success? ==> Proposed(old(rows), rows, Members(order), r.value, evaluated)
      ensures r.Success? && r.value.Some? ==> r.value.value < |rows| && rows[r.value.value].id in validated
    {
      evaluated := {};
      var k := 0;
      while k < |order|
        invariant k <= |order| && Visited(order, k, evaluated)
        invariant Valid() && validated >= old(validated)
        invariant Proposed(old(rows), rows, evaluated, None, evaluated)
      {
        VisitNext(order, k, evaluated);
        ghost var before, done := rows, evaluated;
        evaluated := evaluated + {order[k]};
        var passed := Check(order[k]);
        if passed.Failure? {
          return Failure(passed.error), evaluated;
        }
        if passed.value {
          ProposedFound(old(rows), before, rows, order, k, done, world);
          return Success(Some(order[k])), evaluated;
        }
        k := k + 1;
      }
      VisitedAll(order, evaluated);
      return Success(None), evaluated;
    }

    /** Evaluates survivors from the fastest refined timing on, until one passes. */
    method ValidateBest(survivors: seq<nat>) returns (r: Result<Option<nat>, Error>, evaluated: set<nat>)
      requires Valid() && Distinct(survivors) && Sortable(rows, survivors)
      requires forall i :: i in survivors ==> rows[i].status == Measured
      modifies this
      ensures world.Healthy() ==> r.Success?
      ensures r.Success? ==> Valid() && validated >= old(validated)
      ensures r.Success? ==> Proposed(old(rows), rows, Members(survivors), r.value, evaluated)
      ensures r.Success? && r.value.Some? ==> r.value.value < |rows| && rows[r.value.value].id in validated
    {
      var order := SortByRefined(rows, survivors);
      SortedMembers(survivors, order);
      r, evaluated := ValidateInOrder(order);
    }

    /** Marks the measured survivors that are not kept, and evaluates those that are kept and were not yet evaluated. */
    method MarkRefined(survivors: seq<nat>, keep: set<Id>, evaluated: set<nat>) returns (r: Result<(), Error>)
      requires Valid() && Distinct(survivors) && InRange(rows, Members(survivors))
      modifies this
      ensures world.Healthy() ==> r.Success?
      ensures r.Success? ==> Valid() && validated >= old(validated)
      ensures r.Success? ==> RefinedMarks(old(rows), rows, Members(survivors), keep, evaluated)
    {
      var k := 0;
      ghost var done: set<nat> := {};
      while k < |survivors|
        invariant k <= |survivors| && Visited(survivors, k, done)
        invariant Valid() && validated >= old(validated)
        invariant RefinedMarks(old(rows), rows, done, keep, evaluated)
      {
        var i := survivors[k];
        VisitNext(survivors, k, done);
        if rows[i].status == Measured {
          if rows[i].id !in keep {
            rows := rows[i := rows[i].(status := RefinedPruned)];
          } else if i !in evaluated {
            var passed := Check(i);
            if passed.Failure? {
              return Failure(passed.error);
            }
          }
        }
        done := done + {i};
        k := k + 1;
      }
      VisitedAll(survivors, done);
      return Success(());
    }

    /** Pilot and prune; the survivors go on. */
    method NarrowPilots(entries: seq<nat>) returns (r: Result<seq<nat>, Error>, ghost s: Stages)
      requires Valid() && Distinct(entries) && WellFormed(rows, Members(entries)) && Unmeasured(rows, Members(entries))
      modifies this
      ensures world.Healthy() ==> r.Success?
      ensures r.Success? ==> Valid() && validated >= old(validated)
      ensures r.Success? ==> Distinct(r.value) && s.survivors == Members(r.value) && s.entries == Members(entries)
      ensures r.Success? ==> s.Piloted(policy) && s.before == old(rows) && s.pruned == rows && s.bases.refined.None?
      ensures r.Success? ==> Truthful(s.piloted, world)
      ensures r.Success? && s.bases.pilot.Some? ==>
        s.bases.pilot.value < |rows| && rows[s.bases.pilot.value].id in validated
    {
      s := Stages(rows, rows, rows, rows, rows, rows, Members(entries), {}, None, {}, {}, Bases(None, None));
      var pilot := Pilot(entries);
      if pilot.Failure? {
        return Failure(pilot.error), s;
      }
      ghost var base := PilotWitness(rows, Members(entries), pilot.value);
      s := s.(piloted := rows, best := pilot.value, bases := Bases(base, None));
      var survivors := PrunePilots(entries, pilot.value);
      s := s.(pruned := rows, survivors := Members(survivors));
      return Success(survivors), s;
    }

    /** Refine, and validate the refined best. */
    method NarrowRefined(survivors: seq<nat>, ghost s0: Stages)
      returns (r: Result<Option<nat>, Error>, evaluated: set<nat>, ghost s: Stages)
      requires Valid() && Distinct(survivors) && s0.survivors == Members(survivors)
      requires s0.Piloted(policy) && s0.pruned == rows
      modifies this
      ensures world.Healthy() ==> r.Success?
      ensures r.Success? ==> Valid() && validated >= old(validated) && s.evaluated == evaluated
      ensures r.Success? ==> s == s0.(refined := s.refined, proposed := rows, evaluated := evaluated,
                                      bases := Bases(s0.bases.pilot, r.value))
      ensures r.Success? ==> RefinedOnly(s.pruned, s.refined, s.survivors)
      ensures r.Success? ==> Proposed(s.refined, s.proposed, s.survivors, r.value, evaluated)
      ensures r.Success? && r.value.Some? ==> r.value.value < |rows| && rows[r.value.value].id in validated
    {
      s0.Survive(policy);
      Refine(survivors);
      RefinedSortable(s0.pruned, rows, survivors);
      s := s0.(refined := rows);
      r, evaluated := ValidateBest(survivors);
      if r.Success? {
        s := s.(proposed := rows, evaluated := evaluated, bases := Bases(s0.bases.pilot, r.value));
      }
    }

    /** Pilot, prune, refine, validate the refined best, prune again, and validate what is left. */
    method Narrow(entries: seq<nat>) returns (r: Result<(), Error>, ghost bases: Bases)
      requires Valid() && Distinct(entries) && WellFormed(rows, Members(entries)) && Unmeasured(rows, Members(entries))
      modifies this
      ensures world.Healthy() ==> r.Success?
      ensures r.Success? ==> Valid() && Narrowed(old(rows), rows, Members(entries), bases, policy, world)
      ensures r.Success? && bases.pilot.Some? ==> bases.pilot.value < |rows| && rows[bases.pilot.value].id in validated
      ensures r.Success? && bases.refined.Some? ==>
        bases.refined.value < |rows| && rows[bases.refined.value].id in validated
    {
      bases := Bases(None, None);
      var survivors, chosen, evaluated;
      ghost var s;
      survivors, s := NarrowPilots(entries);
      if survivors.Failure? {
        return Failure(survivors.error), bases;
      }
      chosen, evaluated, s := NarrowRefined(survivors.value, s);
      if chosen.Failure? {
        return Failure(chosen.error), bases;
      }
      bases := s.bases;
      s.Propose(policy);
      RefinedKeep(rows, s.survivors, chosen.value, evaluated, policy.refined);
      var keep := PruneTimings(rows, RefinedField, policy.refined);
      var marked := MarkRefined(survivors.value, keep, evaluated);
      if marked.Failure? {
        return Failure(marked.error), bases;
      }
      s := s.(after := rows, keep := keep);
      s.Narrow(policy, world);
      return Success(()), bases;
    }

    /** In a final-only run: validates a row and estimates its timing; None if it was rejected. */
    method EstimateRow(i: nat, estimates: Option<map<Id, real>>) returns (r: Result<Option<real>, Error>)
      requires Valid() && i < |rows| && Unmeasured(rows, {i})
      modifies this
      ensures world.Healthy() && EstimatesOk(estimates, old(rows), {i}) ==>
        r.Success? && (r.value.Some? ==> r.value.value > 0.0)
      ensures r.Success? ==> Valid() && validated >= old(validated)
      ensures r.Success? ==>
        rows == old(rows)[i := if r.value.None? then Failing(old(rows)[i].(status := Measured))
                               else Passing(old(rows)[i].(status := Measured), world).(refined := r.value)]
      ensures r.Success? && r.value.Some? ==> world.Estimated(rows[i], estimates)
    {
      rows := rows[i := rows[i].(status := Measured)];
      var passed := Check(i);
      if passed.Failure? {
        return Failure(passed.error);
      }
      if !passed.value {
        return Success(None);
      }
      var estimate := EstimateOf(rows[i].id, estimates);
      if estimate.Failure? {
        return Failure(estimate.error);
      }
      rows := rows[i := rows[i].(refined := Some(estimate.value))];
      return Success(Some(estimate.value));
    }

    /** The estimate for a candidate: the supplied one, or its own trials when none are supplied. */
    method EstimateOf(id: Id, estimates: Option<map<Id, real>>) returns (r: Result<real, Error>)
      requires world.Valid()
      ensures world.Healthy() && (estimates.Some? ==> id in estimates.value && estimates.value[id] > 0.0) ==>
        r.Success? && r.value > 0.0
      ensures r.Failure? <==> estimates.Some? && id !in estimates.value
      ensures r.Success? ==>
        if estimates.Some? then r.value == estimates.value[id] else IsLeast(r.value, world.estimateTrials(id))
    {
      if world.Healthy() {
        HealthyTimings(world, id, 0, 0.0);
      }
      if estimates.None? {
        return Success(Least(world.estimateTrials(id)));
      } else if id in estimates.value {
        return Success(estimates.value[id]);
      }
      return Failure(MissingEstimate);
    }

    /** The final timing of a row with an estimate. */
    method FinalTime(i: nat, estimate: real) returns (r: Result<(), Error>)
      requires Valid() && i < |rows| && rows[i].refined == Some(estimate)
      modifies this`rows
      ensures world.Healthy() && estimate > 0.0 ==> r.Success?
      ensures r.Success? ==> Valid() && estimate > 0.0 && world.finalRuntime(old(rows)[i].id, estimate) > 0.0
      ensures r.Success? ==>
        rows == old(rows)[i := old(rows)[i].(runtime := Some(world.finalRuntime(old(rows)[i].id, estimate)))]
    {
      assert world.Genuine(rows[i], policy.settings);
      if world.Healthy() {
        HealthyTimings(world, rows[i].id, 0, estimate);
      }
      if estimate <= 0.0 {
        return Failure(InvalidRefined);
      }
      var runtime := world.finalRuntime(rows[i].id, estimate);
      if runtime <= 0.0 {
        return Failure(InvalidFinal);
      }
      rows := rows[i := rows[i].(runtime := Some(runtime))];
      return Success(());
    }

    /** The final timing of one row; a final-only run validates and estimates it first. */
    method FinishRow(i: nat, finalOnly: bool, estimates: Option<map<Id, real>>) returns (r: Result<(), Error>)
      requires Valid() && i < |rows|
      requires !finalOnly && rows[i].status == Measured ==> rows[i].pilot.Some? && rows[i].refined.Some?
      requires finalOnly ==> Unmeasured(rows, {i})
      modifies this
      ensures world.Healthy() && (finalOnly ==> EstimatesOk(estimates, old(rows), {i})) ==> r.Success?
      ensures r.Success? ==> Valid() && validated >= old(validated)
      ensures r.Success? ==> Finished(old(rows), rows, {i}, ModeOf(finalOnly, estimates), world)
    {
      var estimate: Option<real>;
      if finalOnly {
        var estimated := EstimateRow(i, estimates);
        if estimated.Failure? {
          return Failure(estimated.error);
        }
        estimate := estimated.value;
      } else {
        estimate := if rows[i].status == Measured then rows[i].refined else None;
        if rows[i].status == Measured {
          RefinedPositive(i);
        }
      }
      if estimate.None? {
        return Success(());
      }
      r := FinalTime(i, estimate.value);
    }

    /** In a healthy world a refined timing is positive. */
    lemma RefinedPositive(i: nat)
      requires Valid() && i < |rows| && rows[i].pilot.Some? && rows[i].refined.Some?
      ensures world.Healthy() ==> rows[i].refined.value > 0.0
    {
      assert world.Genuine(rows[i], policy.settings);
      if world.Healthy() {
        HealthyTimings(world, rows[i].id, RefinementTrials(policy.settings, rows[i].pilot.value), 0.0);
      }
    }

    method Finish(entries: seq<nat>, finalOnly: bool, estimates: Option<map<Id, real>>) returns (r: Result<(), Error>)
      requires Valid() && Distinct(entries) && InRange(rows, Members(entries))
      requires !finalOnly ==> forall i: nat :: i < |rows| && rows[i].status == Measured ==>
        rows[i].pilot.Some? && rows[i].refined.Some?
      requires finalOnly ==> Unmeasured(rows, Members(entries))
      modifies this
      ensures world.Healthy() && (finalOnly ==> EstimatesOk(estimates, old(rows), Members(entries))) ==> r.Success?
      ensures r.Success? ==> Valid() && validated >= old(validated)
      ensures r.Success? ==> Finished(old(rows), rows, Members(entries), ModeOf(finalOnly, estimates), world)
    {
      var k := 0;
      ghost var done: set<nat> := {};
      while k < |entries|
        invariant k <= |entries| && Visited(entries, k, done)
        invariant Valid() && validated >= old(validated)
        invariant Finished(old(rows), rows, done, ModeOf(finalOnly, estimates), world)
      {
        VisitNext(entries, k, done);
        var step := FinishRow(entries[k], finalOnly, estimates);
        if step.Failure? {
          return Failure(step.error);
        }
        done := done + {entries[k]};
        k := k + 1;
      }
      VisitedAll(entries, done);
      return Success(());
    }

    /** The whole staged measurement. */
    method MeasureEntries(entries: seq<nat>, finalOnly: bool, estimates: Option<map<Id, real>>)
      returns (r: Result<(), Error>, ghost bases: Bases)
      requires Valid() && Distinct(entries) && WellFormed(rows, Members(entries)) && Unmeasured(rows, Members(entries))
      modifies this
      ensures world.Healthy() && (finalOnly ==> EstimatesOk(estimates, old(rows), Members(entries))) ==> r.Success?
      ensures r.Success? ==> Valid() && Reported(rows)
      ensures r.Success? && !finalOnly ==> Narrowed(old(rows), rows, Members(entries), bases, policy, world)
      ensures r.Success? && bases.pilot.Some? ==> bases.pilot.value < |rows| && rows[bases.pilot.value].id in validated
      ensures r.Success? && bases.refined.Some? ==>
        bases.refined.value < |rows| && rows[bases.refined.value].id in validated
    {
      bases := Bases(None, None);
      ghost var narrowed := rows;
      if !finalOnly {
        var narrow;
        narrow, bases := Narrow(entries);
        if narrow.Failure? {
          return Failure(narrow.error), bases;
        }
        narrowed := rows;
        NarrowedRefined(old(rows), rows, Members(entries), bases, policy, world);
      }
      r := Finish(entries, finalOnly, estimates);
      if r.Success? && !finalOnly {
        FinishKeepsNarrowed(old(rows), narrowed, rows, Members(entries), bases, policy, world);
      }
    }

    /** The worker's report: the best final timing among the rows that are still measured. */
    method MeasureCandidates(entries: seq<nat>, finalOnly: bool, estimates: Option<map<Id, real>>)
      returns (r: Result<Option<Row>, Error>)
      requires Valid() && Distinct(entries) && WellFormed(rows, Members(entries)) && Unmeasured(rows, Members(entries))
      modifies this
      ensures world.Healthy() && (finalOnly ==> EstimatesOk(estimates, old(rows), Members(entries))) ==> r.Success?
      ensures r.Success? ==> Valid() && Reported(rows)
      ensures r.Success? && r.value.None? ==> forall i: nat :: i < |rows| ==> rows[i].status != Measured
      ensures r.Success? && r.value.Some? ==> BestRow(rows, r.value.value)
      ensures world.Deterministic() && SomeAccepted(old(rows), Members(entries), world) && r.Success? && !finalOnly ==>
        r.value.Some?
    {
      var measured;
      ghost var bases;
      measured, bases := MeasureEntries(entries, finalOnly, estimates);
      if measured.Failure? {
        return Failure(measured.error);
      }
      var best: Option<Row> := None;
      var k := 0;
      while k < |rows|
        invariant k <= |rows|
        invariant best.None? ==> forall i: nat :: i < k ==> rows[i].status != Measured
        invariant best.Some? ==> best.value in rows && best.value.status == Measured && best.value.runtime.Some?
        invariant best.Some? ==> forall i: nat :: i < k && rows[i].status == Measured ==>
          best.value.runtime.value <= rows[i].runtime.value
      {
        if rows[k].status == Measured {
          if best.None? || rows[k].runtime.value < best.value.runtime.value {
            best := Some(rows[k]);
          }
        }
        k := k + 1;
      }
      return Success(best);
    }
  }
}
