// Replicated tuning: shards of configurations are timed on GPUs, their rows are
// merged in completion order, and every survivor is measured again until it
// holds the requested number of timings from distinct GPUs.
//
// The remote side is an arbitrary function to a reply from the wave, which is named
// by the number of replies before it, and the job. Shards complete in an arbitrary
// order, chosen inside `Wave`.

module Replication {
  import opened Outcomes
  import opened Pruning
  import opened Sequences

  type Id = string
  type Uuid = string
  type CallId = string

  datatype Variant = Variant(id: Id, configuration: string)

  datatype Policy = Policy(factor: nat, maxAttempts: nat, jobSize: nat, pruning: Option<Pruning>) {
    predicate Valid() {
      factor >= 1 && maxAttempts >= 1 && jobSize >= 1 && ValidRule(pruning)
    }
  }

  datatype Status = Measured | Invalid | GloballyPruned | Other(name: string)

  /** One row of a worker's report; `runtime` is None unless it is a finite number. */
  datatype Row = Row(id: Id, status: Status, runtime: Option<real>)

  /** One GPU's report. An empty UUID is a missing one. */
  datatype Output =
    | DuplicateGpu(gpu: Uuid)
    | Measurements(gpu: Uuid, rows: seq<Row>)

  datatype Reply =
    | JobError(callId: Option<CallId>)
    | JobReport(callId: Option<CallId>, outputs: seq<Output>)

  datatype Job = Job(chunk: seq<Variant>, excluded: set<Uuid>)

  /** What a job left in the history: what it asked for, and an accepted list of reports or an error. */
  datatype Shard = Shard(callId: Option<CallId>, requested: seq<Id>, outputs: Option<seq<Output>>)

  datatype Replica = Replica(gpu: Uuid, runtime: real, callId: Option<CallId>)

  datatype State = State(id: Id, status: Status, replicas: seq<Replica>, attempts: nat, runtime: Option<real>)

  datatype Fault =
    | JobFailed
    | FailedAfterPassing(id: Id)
    | PassedAfterFailing(id: Id)
    | InvalidTiming
    | ReusedGpu

  datatype Error =
    | Faults(faults: seq<Fault>)
    | PlacementLimit
    | NothingCompleted

  datatype Report = Report(results: seq<State>, bestId: Id, bestRuntime: real, bestConfiguration: Variant)

  /** One row as it was merged, with the GPU and the call it came from. */
  datatype Observation = Observation(gpu: Uuid, callId: Option<CallId>, row: Row)

  // ---------------------------------------------------------------- dispatch

  function Ids(chunk: seq<Variant>): set<Id> {
    set v | v in chunk :: v.id
  }

  function RowIds(rows: seq<Row>): set<Id> {
    set r | r in rows :: r.id
  }

  predicate Acceptable(output: Output, job: Job) {
    && output.gpu != ""
    && match output
       case DuplicateGpu(gpu) => gpu in job.excluded
       case Measurements(_, rows) => |rows| == |job.chunk| && RowIds(rows) == Ids(job.chunk)
  }

  /** Validates a reply; every defect becomes an error shard. */
  function Dispatch(job: Job, reply: Reply): Shard {
    match reply
    case JobError(callId) => Shard(callId, VariantIds(job.chunk), None)
    case JobReport(callId, outputs) =>
      if outputs != [] && forall o :: o in outputs ==> Acceptable(o, job)
      then Shard(callId, VariantIds(job.chunk), Some(outputs))
      else Shard(callId, VariantIds(job.chunk), None)
  }

  lemma DispatchMeans(job: Job, reply: Reply)
    requires Dispatch(job, reply).outputs.Some?
    ensures forall o :: o in Dispatch(job, reply).outputs.value && o.Measurements? ==> RowIds(o.rows) == Ids(job.chunk)
  {
    var outputs := Dispatch(job, reply).outputs.value;
    forall o | o in outputs && o.Measurements? ensures RowIds(o.rows) == Ids(job.chunk) {
      assert Acceptable(o, job);
    }
  }

  /** The defects of a report: no GPU, a duplicate GPU that was not excluded, or rows that are not those of the job. */
  ghost predicate Defective(output: Output, job: Job) {
    || output.gpu == ""
    || (output.DuplicateGpu? && output.gpu !in job.excluded)
    || (output.Measurements? &&
        (|output.rows| != |job.chunk| || (exists v :: v in job.chunk && Missing(output.rows, v.id))
         || exists r :: r in output.rows && Foreign(job.chunk, r.id)))
  }

  ghost predicate Missing(rows: seq<Row>, id: Id) { forall r :: r in rows ==> r.id != id }

  ghost predicate Foreign(chunk: seq<Variant>, id: Id) { forall v :: v in chunk ==> v.id != id }

  lemma AcceptableMeaning(output: Output, job: Job)
    ensures Acceptable(output, job) <==> !Defective(output, job)
  {
    if output.Measurements? {
      var rows, chunk := output.rows, job.chunk;
      forall v | v in chunk ensures Missing(rows, v.id) <==> v.id !in RowIds(rows) {
      }
      forall r | r in rows ensures Foreign(chunk, r.id) <==> r.id !in Ids(chunk) {
      }
      if RowIds(rows) != Ids(chunk) {
        var id :| (id in RowIds(rows)) != (id in Ids(chunk));
      } else {
        forall v | v in chunk ensures !Missing(rows, v.id) {
          assert v.id in Ids(chunk);
        }
        forall r | r in rows ensures !Foreign(chunk, r.id) {
          assert r.id in RowIds(rows);
        }
      }
    }
  }

  /** A reply is accepted, and then taken as it is, exactly if it has reports and none is defective. */
  lemma DispatchMeaning(job: Job, reply: Reply)
    ensures var shard := Dispatch(job, reply);
      && shard.callId == reply.callId && shard.requested == VariantIds(job.chunk)
      && (shard.outputs.Some? <==>
            reply.JobReport? && reply.outputs != [] && forall o :: o in reply.outputs ==> !Defective(o, job))
      && (shard.outputs.Some? ==> shard.outputs.value == reply.outputs)
  {
    if reply.JobReport? {
      forall o | o in reply.outputs ensures Acceptable(o, job) <==> !Defective(o, job) {
        AcceptableMeaning(o, job);
      }
    }
  }

  // ------------------------------------------------------------ observations

  function OutputRows(output: Output, callId: Option<CallId>): seq<Observation> {
    match output
    case DuplicateGpu(_) => []
    case Measurements(gpu, rows) => seq(|rows|, i requires 0 <= i < |rows| => Observation(gpu, callId, rows[i]))
  }

  function OutputsRows(outputs: seq<Output>, callId: Option<CallId>): seq<Observation> {
    if outputs == [] then []
    else OutputsRows(outputs[..|outputs| - 1], callId) + OutputRows(outputs[|outputs| - 1], callId)
  }

  function ShardRows(shard: Shard): seq<Observation> {
    if shard.outputs.None? then [] else OutputsRows(shard.outputs.value, shard.callId)
  }

  /** Every row the workers reported, in the order in which it was merged. */
  function Observations(history: seq<Shard>): seq<Observation> {
    if history == [] then []
    else Observations(history[..|history| - 1]) + ShardRows(history[|history| - 1])
  }

  // -------------------------------------------------------------- one state

  function Gpus(replicas: seq<Replica>): set<Uuid> {
    set r | r in replicas :: r.gpu
  }

  ghost predicate DistinctGpus(replicas: seq<Replica>) {
    forall i, j :: 0 <= i < j < |replicas| ==> replicas[i].gpu != replicas[j].gpu
  }

  function Total(replicas: seq<Replica>): real {
    if replicas == [] then 0.0 else Total(replicas[..|replicas| - 1]) + replicas[|replicas| - 1].runtime
  }

  function Mean(replicas: seq<Replica>): real
    requires replicas != []
  {
    Total(replicas) / |replicas| as real
  }

  lemma TotalMeaning(replicas: seq<Replica>, last: Replica)
    ensures Total([]) == 0.0 && Total(replicas + [last]) == Total(replicas) + last.runtime
  {
    assert (replicas + [last])[..|replicas|] == replicas;
  }

  /** The mean times the number of replicas is the sum of their timings. */
  lemma MeanMeaning(replicas: seq<Replica>)
    requires replicas != []
    ensures Mean(replicas) * |replicas| as real == Total(replicas)
  {
  }

  /** How one reported row changes the state of its configuration. */
  function MergeRow(s: State, o: Observation, factor: nat): (State, Option<Fault>) {
    var row := o.row;
    if row.status.Invalid? && s.replicas != [] then (s, Some(FailedAfterPassing(s.id)))
    else if row.status.Measured? && s.status.Invalid? then (s, Some(PassedAfterFailing(s.id)))
    else if |s.replicas| >= factor then (s, None)
    else if !row.status.Measured? then (s.(status := row.status), None)
    else if row.runtime.None? || row.runtime.value <= 0.0 then (s, Some(InvalidTiming))
    else if o.gpu in Gpus(s.replicas) then (s, Some(ReusedGpu))
    else (s.(replicas := s.replicas + [Replica(o.gpu, row.runtime.value, o.callId)]), None)
  }

  /** At most `factor` replicas, on distinct GPUs, each backed by a reported timing. */
  ghost predicate StateOk(s: State, id: Id, factor: nat, seen: seq<Observation>) {
    && s.id == id
    && |s.replicas| <= factor
    && DistinctGpus(s.replicas)
    && forall r :: r in s.replicas ==>
         r.runtime > 0.0 && Observation(r.gpu, r.callId, Row(id, Measured, Some(r.runtime))) in seen
  }

  /** No GPU reported a failed evaluation for this configuration. */
  ghost predicate NeverInvalid(id: Id, seen: seq<Observation>) {
    forall o :: o in seen && o.row.id == id ==> !o.row.status.Invalid?
  }

  /** A GPU reported a failed evaluation. */
  predicate FailedSomewhere(id: Id, seen: seq<Observation>) {
    seen != [] &&
      var last := seen[|seen| - 1];
      (last.row.id == id && last.row.status.Invalid?) || FailedSomewhere(id, seen[..|seen| - 1])
  }

  predicate MeasuredSomewhere(id: Id, seen: seq<Observation>) {
    seen != [] &&
      var last := seen[|seen| - 1];
      (last.row.id == id && last.row.status.Measured?) || MeasuredSomewhere(id, seen[..|seen| - 1])
  }

  /** A measured row without a positive timing. */
  predicate MistimedSomewhere(seen: seq<Observation>) {
    seen != [] &&
      var last := seen[|seen| - 1];
      || (last.row.status.Measured? && (last.row.runtime.None? || last.row.runtime.value <= 0.0))
      || MistimedSomewhere(seen[..|seen| - 1])
  }

  /** Two measurements of one configuration from one GPU. */
  ghost predicate Repeated(seen: seq<Observation>) {
    seen != [] &&
      var init, last := seen[..|seen| - 1], seen[|seen| - 1];
      (exists o :: o in init && SameGpu(o, last)) || Repeated(init)
  }

  lemma {:induction false} SeenMeasured(id: Id, seen: seq<Observation>, o: Observation)
    requires o in seen && o.row.id == id && o.row.status.Measured?
    ensures MeasuredSomewhere(id, seen)
  {
    if o != seen[|seen| - 1] {
      SeenMeasured(id, seen[..|seen| - 1], o);
    }
  }

  predicate SameGpu(a: Observation, b: Observation) {
    a.gpu == b.gpu && a.row.id == b.row.id && a.row.status.Measured? && b.row.status.Measured?
  }

  /** Every fault has its evidence in what the workers reported. */
  ghost predicate Backed(f: Fault, seen: seq<Observation>, history: seq<Shard>) {
    match f
    case JobFailed => exists s :: s in history && s.outputs.None?
    case FailedAfterPassing(id) => FailedSomewhere(id, seen) && MeasuredSomewhere(id, seen)
    case PassedAfterFailing(id) => FailedSomewhere(id, seen) && MeasuredSomewhere(id, seen)
    case InvalidTiming => MistimedSomewhere(seen)
    case ReusedGpu => Repeated(seen)
  }

  ghost predicate AllBacked(faults: seq<Fault>, seen: seq<Observation>, history: seq<Shard>) {
    faults != [] ==>
      AllBacked(faults[..|faults| - 1], seen, history) && Backed(faults[|faults| - 1], seen, history)
  }

  lemma {:induction false} EachBacked(faults: seq<Fault>, seen: seq<Observation>, history: seq<Shard>)
    requires AllBacked(faults, seen, history)
    ensures forall f :: f in faults ==> Backed(f, seen, history)
  {
    if faults != [] {
      EachBacked(faults[..|faults| - 1], seen, history);
      assert faults == faults[..|faults| - 1] + [faults[|faults| - 1]];
    }
  }

  lemma BackedLater(f: Fault, seen: seq<Observation>, o: Observation, history: seq<Shard>)
    requires Backed(f, seen, history)
    ensures Backed(f, seen + [o], history)
  {
    assert (seen + [o])[..|seen|] == seen;
  }

  /** The fault that a merged row raises is backed by that row and the ones before it. */
  lemma FaultBacked(s: State, o: Observation, factor: nat, seen: seq<Observation>, history: seq<Shard>)
    requires StateOk(s, o.row.id, factor, seen)
    requires s.status.Invalid? ==> FailedSomewhere(s.id, seen + [o])
    ensures MergeRow(s, o, factor).1.Some? ==> Backed(MergeRow(s, o, factor).1.value, seen + [o], history)
  {
    var fault := MergeRow(s, o, factor).1;
    assert (seen + [o])[..|seen|] == seen;
    if fault.Some? && fault.value.FailedAfterPassing? {
      var r := s.replicas[0];
      assert r in s.replicas;
      SeenMeasured(o.row.id, seen, Observation(r.gpu, r.callId, Row(o.row.id, Measured, Some(r.runtime))));
    } else if fault.Some? && fault.value.ReusedGpu? {
      var r :| r in s.replicas && r.gpu == o.gpu;
      var p := Observation(r.gpu, r.callId, Row(o.row.id, Measured, Some(r.runtime)));
      assert p in seen && SameGpu(p, o);
    }
  }

  /** The changes any later moment of a run may have made to one configuration. */
  ghost predicate Later(before: State, after: State) {
    && after.id == before.id
    && before.replicas <= after.replicas
    && (after.status.Measured? ==> before.status.Measured?)
  }

  lemma MergeRowSafe(s: State, o: Observation, factor: nat, seen: seq<Observation>)
    requires factor >= 1
    requires StateOk(s, o.row.id, factor, seen)
    ensures var (t, fault) := MergeRow(s, o, factor);
      && StateOk(t, o.row.id, factor, seen + [o])
      && Later(s, t) && t.attempts == s.attempts && t.runtime == s.runtime
      && (s.status.Measured? && NeverInvalid(s.id, seen) && t.status.Measured? && fault.None?
          ==> NeverInvalid(s.id, seen + [o]))
      && (t.status.Measured? && fault.None? ==> t.replicas != [] || !o.row.status.Measured?)
  {
  }

  // ----------------------------------------------------------------- reduce

  /** The states, reduced: exact means, and the prune against the best of them. */
  function LeastMean(order: seq<Id>, states: map<Id, State>): Option<real>
    requires forall id :: id in order ==> id in states
    requires forall id :: id in order && states[id].status.Measured? ==> states[id].replicas != []
  {
    if order == [] then None
    else
      var rest := LeastMean(order[..|order| - 1], states);
      var s := states[order[|order| - 1]];
      if !s.status.Measured? then rest
      else if rest.None? || Mean(s.replicas) < rest.value then Some(Mean(s.replicas)) else rest
  }

  function Averaging(s: State): State
    requires s.status.Measured? ==> s.replicas != []
  {
    if s.status.Measured? then s.(runtime := Some(Mean(s.replicas))) else s
  }

  function Pruned(s: State, limit: Option<real>): State
    requires s.status.Measured? ==> s.runtime.Some?
  {
    if s.status.Measured? && !Within(s.runtime.value, limit) then s.(status := GloballyPruned) else s
  }

  function ReduceState(s: State, best: real, pruning: Option<Pruning>): State
    requires s.status.Measured? ==> s.replicas != []
  {
    Pruned(Averaging(s), Limit(best, pruning))
  }

  ghost predicate Averaged(states: map<Id, State>) {
    forall id :: id in states && states[id].status.Measured? ==>
      states[id].replicas != [] && states[id].runtime == Some(Mean(states[id].replicas))
  }

  lemma {:induction false} LeastMeanIsLeast(order: seq<Id>, states: map<Id, State>)
    requires forall id :: id in order ==> id in states
    requires forall id :: id in order && states[id].status.Measured? ==> states[id].replicas != []
    ensures var best := LeastMean(order, states);
      && (best.None? <==> forall id :: id in order ==> !states[id].status.Measured?)
      && (best.Some? ==>
          && (forall id :: id in order && states[id].status.Measured? ==> best.value <= Mean(states[id].replicas))
          && exists id :: id in order && states[id].status.Measured? && Mean(states[id].replicas) == best.value)
  {
    if order != [] {
      var init, last := order[..|order| - 1], order[|order| - 1];
      LeastMeanIsLeast(init, states);
      assert order == init + [last];
      assert forall id :: id in order <==> id in init || id == last;
      if states[last].status.Measured? {
        assert last in order;
      }
    }
  }

  /** Pruning never removes a best configuration, and removes only slower ones. */
  lemma ReduceKeepsBest(order: seq<Id>, states: map<Id, State>, pruning: Option<Pruning>, id: Id)
    requires ValidRule(pruning)
    requires forall i :: i in order ==> i in states
    requires forall i :: i in order && states[i].status.Measured? ==> states[i].replicas != []
    requires id in order && states[id].status.Measured?
    ensures var best := LeastMean(order, states);
      && best.Some?
      && (Mean(states[id].replicas) == best.value ==> ReduceState(states[id], best.value, pruning).status.Measured?)
      && (ReduceState(states[id], best.value, pruning).status.GloballyPruned? ==>
           Mean(states[id].replicas) > best.value)
  {
    LeastMeanIsLeast(order, states);
  }

  // -------------------------------------------------------------- retry jobs

  /** The pending ids whose measured GPUs are exactly `key`, in order. */
  function WithGpus(ids: seq<Id>, states: map<Id, State>, key: set<Uuid>): seq<Id>
    requires forall id :: id in ids ==> id in states
  {
    if ids == [] then []
    else
      var rest := WithGpus(ids[..|ids| - 1], states, key);
      var id := ids[|ids| - 1];
      if Gpus(states[id].replicas) == key then rest + [id] else rest
  }

  function GroupIds(keys: seq<set<Uuid>>, ids: seq<Id>, states: map<Id, State>): seq<Id>
    requires forall id :: id in ids ==> id in states
  {
    if keys == [] then []
    else GroupIds(keys[..|keys| - 1], ids, states) + WithGpus(ids, states, keys[|keys| - 1])
  }

  lemma JoinedCounts(a: seq<Id>, b: seq<Id>, id: Id)
    ensures multiset(a + b) == multiset(a) + multiset(b)
    ensures multiset(b + [id]) == multiset(b) + multiset{id}
  {
  }

  lemma {:induction false} GroupsGrow(keys: seq<set<Uuid>>, ids: seq<Id>, id: Id, states: map<Id, State>)
    requires Distinct(keys)
    requires id in states && forall i :: i in ids ==> i in states
    ensures multiset(GroupIds(keys, ids + [id], states)) ==
            multiset(GroupIds(keys, ids, states)) +
            if Gpus(states[id].replicas) in keys then multiset{id} else multiset{}
  {
    if keys != [] {
      var init, last := keys[..|keys| - 1], keys[|keys| - 1];
      var key := Gpus(states[id].replicas);
      GroupsGrow(init, ids, id, states);
      WithGpusAppend(ids, id, states, last);
      assert keys == init + [last];
      InConcat(init, [last], key);
      JoinedCounts(GroupIds(init, ids, states), WithGpus(ids, states, last), id);
      JoinedCounts(GroupIds(init, ids + [id], states), WithGpus(ids + [id], states, last), id);
    }
  }

  lemma {:induction false} GroupsPartition(keys: seq<set<Uuid>>, ids: seq<Id>, states: map<Id, State>)
    requires Distinct(keys)
    requires forall i :: i in ids ==> i in states && Gpus(states[i].replicas) in keys
    ensures multiset(GroupIds(keys, ids, states)) == multiset(ids)
  {
    if ids == [] {
      NoIdsNoGroups(keys, states);
    } else {
      var init, last := ids[..|ids| - 1], ids[|ids| - 1];
      assert ids == init + [last];
      GroupsPartition(keys, init, states);
      GroupsGrow(keys, init, last, states);
    }
  }

  lemma {:induction false} NoIdsNoGroups(keys: seq<set<Uuid>>, states: map<Id, State>)
    ensures GroupIds(keys, [], states) == []
  {
    if keys != [] {
      NoIdsNoGroups(keys[..|keys| - 1], states);
    }
  }

  ghost predicate Groups(keys: seq<set<Uuid>>, groups: map<set<Uuid>, seq<Variant>>,
                         ids: seq<Id>, states: map<Id, State>)
    requires forall id :: id in ids ==> id in states
  {
    && Distinct(keys)
    && (forall k :: k in keys <==> k in groups)
    && (forall id :: id in ids ==> Gpus(states[id].replicas) in keys)
    && forall k :: k in groups ==> VariantIds(groups[k]) == WithGpus(ids, states, k)
  }

  function VariantIds(variants: seq<Variant>): (ids: seq<Id>)
    ensures |ids| == |variants| && forall i :: 0 <= i < |ids| ==> ids[i] == variants[i].id
  {
    seq(|variants|, i requires 0 <= i < |variants| => variants[i].id)
  }

  function JobIds(jobs: seq<Job>): seq<Id> {
    if jobs == [] then [] else JobIds(jobs[..|jobs| - 1]) + VariantIds(jobs[|jobs| - 1].chunk)
  }

  /** The jobs cover exactly `ids`, each once; a job excludes exactly the GPUs its members already used. */
  ghost predicate Partitions(jobs: seq<Job>, ids: seq<Id>, states: map<Id, State>, size: nat) {
    && multiset(JobIds(jobs)) == multiset(ids)
    && forall j :: j in jobs ==>
         && 0 < |j.chunk| <= size
         && forall v :: v in j.chunk ==> v.id in states && j.excluded == Gpus(states[v.id].replicas)
  }

  lemma WithGpusAppend(ids: seq<Id>, id: Id, states: map<Id, State>, key: set<Uuid>)
    requires id in states && forall i :: i in ids ==> i in states
    ensures WithGpus(ids + [id], states, key) ==
      if Gpus(states[id].replicas) == key then WithGpus(ids, states, key) + [id] else WithGpus(ids, states, key)
  {
    assert (ids + [id])[..|ids|] == ids;
  }

  lemma WithGpusMembers(ids: seq<Id>, states: map<Id, State>, key: set<Uuid>)
    requires forall id :: id in ids ==> id in states
    ensures forall id :: id in WithGpus(ids, states, key) ==> id in ids && Gpus(states[id].replicas) == key
  {
  }

  lemma JobIdsAppend(jobs: seq<Job>, job: Job)
    ensures JobIds(jobs + [job]) == JobIds(jobs) + VariantIds(job.chunk)
  {
    assert (jobs + [job])[..|jobs|] == jobs;
  }

  lemma SplitLast(a: seq<Job>, b: seq<Job>)
    requires b != []
    ensures a + b == (a + b[..|b| - 1]) + [b[|b| - 1]] && b == b[..|b| - 1] + [b[|b| - 1]]
  {
  }

  lemma {:induction false} JobIdsConcat(a: seq<Job>, b: seq<Job>)
    ensures JobIds(a + b) == JobIds(a) + JobIds(b)
  {
    if b == [] {
      assert a + b == a;
    } else {
      var init, last := b[..|b| - 1], b[|b| - 1];
      var ids := VariantIds(last.chunk);
      SplitLast(a, b);
      JobIdsConcat(a, init);
      JobIdsAppend(a + init, last);
      JobIdsAppend(init, last);
      ConcatAssociative(JobIds(a), JobIds(init), ids);
    }
  }

  lemma {:induction false} JobIdsOfParts(parts: seq<seq<Variant>>, jobs: seq<Job>)
    requires |jobs| == |parts| && forall k :: 0 <= k < |parts| ==> jobs[k].chunk == parts[k]
    ensures JobIds(jobs) == VariantIds(Flatten(parts))
  {
    if parts != [] {
      var n := |parts| - 1;
      JobIdsOfParts(parts[..n], jobs[..n]);
      assert VariantIds(Flatten(parts[..n]) + parts[n]) == VariantIds(Flatten(parts[..n])) + VariantIds(parts[n]);
    }
  }

  /** One job per slice of a group. */
  method SliceJobs(group: seq<Variant>, key: set<Uuid>, size: nat) returns (jobs: seq<Job>)
    requires size >= 1
    ensures JobIds(jobs) == VariantIds(group)
    ensures forall j :: j in jobs ==>
      0 < |j.chunk| <= size && j.excluded == key && forall v :: v in j.chunk ==> v in group
  {
    var parts := Chunks(group, size);
    jobs := seq(|parts|, k requires 0 <= k < |parts| => Job(parts[k], key));
    JobIdsOfParts(parts, jobs);
    FlattenMembers(parts);
  }

  lemma WithGpusNone(ids: seq<Id>, states: map<Id, State>, key: set<Uuid>)
    requires forall id :: id in ids ==> id in states && Gpus(states[id].replicas) != key
    ensures WithGpus(ids, states, key) == []
  {
  }

  /** Whatever the key, adding a pending configuration to its group keeps the group complete. */
  lemma GroupStep(group: seq<Variant>, ids: seq<Id>, states: map<Id, State>, v: Variant, key: set<Uuid>)
    requires v.id in states && forall id :: id in ids ==> id in states
    requires VariantIds(group) == WithGpus(ids, states, key)
    ensures VariantIds(if Gpus(states[v.id].replicas) == key then group + [v] else group) ==
            WithGpus(ids + [v.id], states, key)
  {
    WithGpusAppend(ids, v.id, states, key);
    assert VariantIds(group + [v]) == VariantIds(group) + [v.id];
  }

  /** Adding one pending configuration to its group. */
  lemma GroupsStep(keys: seq<set<Uuid>>, groups: map<set<Uuid>, seq<Variant>>,
                   ids: seq<Id>, states: map<Id, State>, v: Variant)
    requires v.id in states && forall id :: id in ids ==> id in states
    requires Groups(keys, groups, ids, states)
    ensures
      var after := AddToGroup(Grouping(keys, groups), Gpus(states[v.id].replicas), v);
      Groups(after.keys, after.groups, ids + [v.id], states)
  {
    var key := Gpus(states[v.id].replicas);
    var group := if key in groups then groups[key] else [];
    var groups' := groups[key := group + [v]];
    if key !in groups {
      WithGpusNone(ids, states, key);
    }
    forall k | k in groups' ensures VariantIds(groups'[k]) == WithGpus(ids + [v.id], states, k) {
      GroupStep(if k in groups then groups[k] else [], ids, states, v, k);
    }
  }

  /** The groups by the GPUs that their members have used, and these keys in order of first appearance. */
  datatype Grouping = Grouping(keys: seq<set<Uuid>>, groups: map<set<Uuid>, seq<Variant>>)

  function AddToGroup(g: Grouping, key: set<Uuid>, v: Variant): Grouping {
    Grouping(if key in g.groups then g.keys else g.keys + [key],
             g.groups[key := (if key in g.groups then g.groups[key] else []) + [v]])
  }

  function Grouped(ids: seq<Id>, states: map<Id, State>, byId: map<Id, Variant>): Grouping
    requires forall id :: id in ids ==> id in states && id in byId
  {
    if ids == [] then Grouping([], map[])
    else
      var n := |ids| - 1;
      AddToGroup(Grouped(ids[..n], states, byId), Gpus(states[ids[n]].replicas), byId[ids[n]])
  }

  lemma {:induction false} GroupedOk(ids: seq<Id>, states: map<Id, State>, byId: map<Id, Variant>)
    requires forall id :: id in ids ==> id in states && id in byId && byId[id].id == id
    ensures var g := Grouped(ids, states, byId); Groups(g.keys, g.groups, ids, states)
  {
    if ids != [] {
      var n := |ids| - 1;
      var init, g := ids[..n], Grouped(ids[..n], states, byId);
      GroupedOk(init, states, byId);
      assert ids == init + [ids[n]];
      GroupsStep(g.keys, g.groups, init, states, byId[ids[n]]);
    }
  }

  lemma GroupedNext(ids: seq<Id>, i: nat, states: map<Id, State>, byId: map<Id, Variant>)
    requires i < |ids| && forall id :: id in ids ==> id in states && id in byId
    ensures Grouped(ids[..i + 1], states, byId) ==
      AddToGroup(Grouped(ids[..i], states, byId), Gpus(states[ids[i]].replicas), byId[ids[i]])
  {
    assert ids[..i + 1][..i] == ids[..i];
  }

  /** Groups the pending configurations by the GPUs they have used, in order of first appearance. */
  method GroupPending(pending: seq<Id>, states: map<Id, State>, byId: map<Id, Variant>)
    returns (keys: seq<set<Uuid>>, groups: map<set<Uuid>, seq<Variant>>)
    requires forall id :: id in pending ==> id in states && id in byId && byId[id].id == id
    ensures Groups(keys, groups, pending, states)
  {
    keys, groups := [], map[];
    var i := 0;
    while i < |pending|
      invariant 0 <= i <= |pending|
      invariant Grouping(keys, groups) == Grouped(pending[..i], states, byId)
    {
      var id := pending[i];
      var key := Gpus(states[id].replicas);
      GroupedNext(pending, i, states, byId);
      if key !in groups {
        keys, groups := keys + [key], groups[key := []];
      }
      groups := groups[key := groups[key] + [byId[id]]];
      i := i + 1;
    }
    assert pending[..i] == pending;
    GroupedOk(pending, states, byId);
  }

  /** The jobs of one retry wave. */
  method PlanJobs(pending: seq<Id>, states: map<Id, State>, byId: map<Id, Variant>, size: nat)
    returns (jobs: seq<Job>)
    requires size >= 1
    requires forall id :: id in pending ==> id in states && id in byId && byId[id].id == id
    ensures Partitions(jobs, pending, states, size)
  {
    var keys, groups := GroupPending(pending, states, byId);
    jobs := [];
    var k := 0;
    while k < |keys|
      invariant 0 <= k <= |keys|
      invariant JobIds(jobs) == GroupIds(keys[..k], pending, states)
      invariant forall j :: j in jobs ==>
         && 0 < |j.chunk| <= size
         && forall v :: v in j.chunk ==> v.id in states && j.excluded == Gpus(states[v.id].replicas)
    {
      var more := SliceJobs(groups[keys[k]], keys[k], size);
      GroupVariants(groups[keys[k]], pending, states, keys[k]);
      assert keys[..k + 1][..k] == keys[..k];
      JobIdsConcat(jobs, more);
      jobs := jobs + more;
      k := k + 1;
    }
    assert keys[..k] == keys;
    GroupsPartition(keys, pending, states);
  }

  lemma GroupVariants(group: seq<Variant>, ids: seq<Id>, states: map<Id, State>, key: set<Uuid>)
    requires forall id :: id in ids ==> id in states
    requires VariantIds(group) == WithGpus(ids, states, key)
    ensures forall v :: v in group ==> v.id in states && Gpus(states[v.id].replicas) == key
  {
    WithGpusMembers(ids, states, key);
    forall v | v in group ensures v.id in states && Gpus(states[v.id].replicas) == key {
      var n :| 0 <= n < |group| && group[n] == v;
      assert VariantIds(group)[n] == v.id;
    }
  }

  // ------------------------------------------------------------------- runs

  ghost predicate Indexed(order: seq<Id>, states: map<Id, State>) {
    && Distinct(order)
    && (forall id :: id in order <==> id in states)
    && forall id :: id in states ==> states[id].id == id
  }

  ghost predicate Consistent(order: seq<Id>, states: map<Id, State>, history: seq<Shard>,
                             faults: seq<Fault>, seen: seq<Observation>, factor: nat)
  {
    && Indexed(order, states)
    && (forall o :: o in seen ==> o.row.id in states)
    && (forall id :: id in states ==> StateOk(states[id], id, factor, seen))
    && (forall id :: id in states && states[id].status.Invalid? ==> FailedSomewhere(id, seen))
    && (faults == [] ==> forall id :: id in states && states[id].status.Measured? ==> NeverInvalid(id, seen))
    && (faults == [] ==> forall s :: s in history ==> s.outputs.Some?)
  }

  ghost predicate Evolved(before: map<Id, State>, after: map<Id, State>) {
    forall id :: id in before ==>
      id in after && Later(before[id], after[id]) && after[id].attempts == before[id].attempts
  }

  /** Every measured configuration has a timing, so no mean divides by zero. */
  ghost predicate Timed(states: map<Id, State>) {
    forall id :: id in states && states[id].status.Measured? ==> states[id].replicas != []
  }

  ghost function Reduced(order: seq<Id>, states: map<Id, State>, pruning: Option<Pruning>): map<Id, State>
    requires Timed(states) && forall id :: id in order ==> id in states
  {
    var best := LeastMean(order, states);
    if best.None? then states else map id | id in states :: ReduceState(states[id], best.value, pruning)
  }

  /** Reducing sets means and prunes; it changes nothing else. */
  lemma ReducedLater(order: seq<Id>, states: map<Id, State>, pruning: Option<Pruning>)
    requires Indexed(order, states) && Timed(states) && forall id :: id in states ==> states[id].id == id
    ensures var after := Reduced(order, states, pruning);
      && after.Keys == states.Keys && Averaged(after)
      && forall id :: id in after ==>
           && Later(states[id], after[id]) && after[id].attempts == states[id].attempts
           && after[id].id == id && after[id].replicas == states[id].replicas
           && (after[id].status.Invalid? ==> states[id].status.Invalid?)
  {
    LeastMeanIsLeast(order, states);
  }

  /** A timing is retained: it exceeds the best one by at most the share of that, or by at most the allowance. */
  ghost predicate Retained(timing: real, best: real, pruning: Option<Pruning>) {
    match pruning
    case None => true
    case Some(p) => timing - best <= p.relativeDelta * best || timing - best <= p.absoluteUs
  }

  lemma ReducedState(s: State, best: real, pruning: Option<Pruning>)
    requires s.status.Measured? && s.replicas != []
    ensures var after := ReduceState(s, best, pruning);
      && after.runtime == Some(Mean(s.replicas))
      && after.status == if Retained(Mean(s.replicas), best, pruning) then Measured else GloballyPruned
  {
    Retains(Mean(s.replicas), best, pruning);
  }

  lemma BestExists(order: seq<Id>, states: map<Id, State>, id: Id)
    requires Indexed(order, states) && Timed(states) && id in states && states[id].status.Measured?
    ensures LeastMean(order, states).Some?
  {
    LeastMeanIsLeast(order, states);
  }

  /** A measured configuration stays measured exactly if its mean is retained, and is pruned otherwise. */
  lemma ReducedExactly(order: seq<Id>, states: map<Id, State>, pruning: Option<Pruning>, id: Id)
    requires Indexed(order, states) && Timed(states) && id in states && states[id].status.Measured?
    ensures var after, best := Reduced(order, states, pruning), LeastMean(order, states);
      && id in after && best.Some? && after[id].runtime == Some(Mean(states[id].replicas))
      && after[id].status ==
           if Retained(Mean(states[id].replicas), best.value, pruning) then Measured else GloballyPruned
  {
    BestExists(order, states, id);
    ReducedState(states[id], LeastMean(order, states).value, pruning);
  }

  /** Reducing is averaging everything and then pruning against the best of it. */
  lemma ReducedInSteps(order: seq<Id>, states: map<Id, State>, pruning: Option<Pruning>, averaged: map<Id, State>)
    requires Indexed(order, states) && Timed(states)
    requires averaged == map id | id in states :: Averaging(states[id])
    ensures var best := LeastMean(order, states);
      && (best.None? ==> averaged == Reduced(order, states, pruning))
      && (best.Some? ==>
            (map id | id in averaged :: Pruned(averaged[id], Limit(best.value, pruning))) ==
              Reduced(order, states, pruning))
  {
    LeastMeanIsLeast(order, states);
  }

  lemma ReducedSafe(order: seq<Id>, states: map<Id, State>, history: seq<Shard>,
                    faults: seq<Fault>, seen: seq<Observation>, policy: Policy)
    requires Consistent(order, states, history, faults, seen, policy.factor) && Timed(states)
    ensures var after := Reduced(order, states, policy.pruning);
      && Consistent(order, after, history, faults, seen, policy.factor)
      && Averaged(after) && Evolved(states, after) && after.Keys == states.Keys
  {
    var after := Reduced(order, states, policy.pruning);
    forall id | id in states ensures states[id].id == id {
      assert StateOk(states[id], id, policy.factor, seen);
    }
    ReducedLater(order, states, policy.pruning);
    forall id | id in after
      ensures StateOk(after[id], id, policy.factor, seen)
    {
      assert StateOk(states[id], id, policy.factor, seen);
    }
  }

  predicate IsPending(s: State, factor: nat) {
    s.status.Measured? && |s.replicas| < factor
  }

  function PendingIds(order: seq<Id>, states: map<Id, State>, factor: nat): (ids: seq<Id>)
    requires forall id :: id in order ==> id in states
    ensures forall id :: id in ids <==> id in order && IsPending(states[id], factor)
  {
    if order == [] then []
    else
      var rest := PendingIds(order[..|order| - 1], states, factor);
      var id := order[|order| - 1];
      assert order == order[..|order| - 1] + [id];
      if IsPending(states[id], factor) then rest + [id] else rest
  }

  lemma PendingDistinct(order: seq<Id>, states: map<Id, State>, factor: nat)
    requires Distinct(order)
    requires forall id :: id in order ==> id in states
    ensures Distinct(PendingIds(order, states, factor))
  {
    if order != [] {
      PendingDistinct(order[..|order| - 1], states, factor);
    }
  }

  function ById(variants: seq<Variant>): (m: map<Id, Variant>)
    ensures forall id :: id in m ==> m[id].id == id && m[id] in variants
    ensures forall v :: v in variants ==> v.id in m
  {
    if variants == [] then map[]
    else
      var init, last := variants[..|variants| - 1], variants[|variants| - 1];
      assert variants == init + [last];
      ById(init)[last.id := last]
  }

  function Attempted(states: map<Id, State>, ids: seq<Id>): map<Id, State> {
    map id | id in states ::
      if id in ids then states[id].(attempts := states[id].attempts + 1) else states[id]
  }

  /** One retry wave as it was planned: what was pending, and the jobs that were dispatched. */
  datatype Plan = Plan(pending: seq<Id>, jobs: seq<Job>, states: map<Id, State>)

  ghost predicate PlanOk(p: Plan, wave: nat, policy: Policy) {
    && Distinct(p.pending)
    && (forall id :: id in p.pending <==> id in p.states && IsPending(p.states[id], policy.factor))
    && (forall id :: id in p.pending ==> p.states[id].attempts == wave + 1)
    && Partitions(p.jobs, p.pending, p.states, policy.jobSize)
  }

  /** Retry waves partition the pending set, which only shrinks, and count the attempts. */
  ghost predicate PlansOk(plans: seq<Plan>, policy: Policy) {
    plans == [] ||
      var before, last := plans[..|plans| - 1], plans[|plans| - 1];
      && PlansOk(before, policy)
      && |plans| <= policy.maxAttempts
      && PlanOk(last, |plans| - 1, policy)
      && forall p, id :: p in before && id in last.pending ==> id in p.pending
  }

  /** A state made from the first row reported for its configuration. */
  function Created(row: Row): State {
    State(row.id, row.status, [], 0, row.runtime)
  }

  /** What one or more merged rows may change. */
  ghost predicate Grown(faults: seq<Fault>, states: map<Id, State>, faults': seq<Fault>, states': map<Id, State>,
                        ids: set<Id>)
  {
    && faults <= faults'
    && Evolved(states, states')
    && forall id :: id in states' && id !in states ==> id in ids && states'[id].attempts == 0
  }

  lemma GrownTransitive(faults: seq<Fault>, states: map<Id, State>, faults': seq<Fault>, states': map<Id, State>,
                        faults'': seq<Fault>, states'': map<Id, State>, ids: set<Id>)
    requires Grown(faults, states, faults', states', ids) && Grown(faults', states', faults'', states'', ids)
    ensures Grown(faults, states, faults'', states'', ids)
  {
  }

  /** Between reports: a retry wave leaves exact means, an initial wave a timing for every measured row. */
  ghost predicate Ready(finalOnly: bool, faults: seq<Fault>, states: map<Id, State>) {
    if finalOnly then Averaged(states) else faults == [] ==> Timed(states)
  }

  // ------------------------------------------------------------- the course

  /** The variables of a run at some moment. */
  datatype Table = Table(order: seq<Id>, states: map<Id, State>, faults: seq<Fault>)

  const EMPTY_TABLE := Table([], map[], [])

  function MergeOne(t: Table, o: Observation, factor: nat): Table {
    var id := o.row.id;
    var (merged, fault) := MergeRow(if id in t.states then t.states[id] else Created(o.row), o, factor);
    Table(if id in t.states then t.order else t.order + [id], t.states[id := merged],
          if fault.Some? then t.faults + [fault.value] else t.faults)
  }

  function MergeAll(t: Table, os: seq<Observation>, factor: nat): Table {
    if os == [] then t else MergeOne(MergeAll(t, os[..|os| - 1], factor), os[|os| - 1], factor)
  }

  ghost function ReduceTable(t: Table, pruning: Option<Pruning>): Table {
    if Timed(t.states) && forall id :: id in t.order ==> id in t.states
    then t.(states := Reduced(t.order, t.states, pruning)) else t
  }

  /** A retry wave reduces after every report, the first one only when all its jobs are complete. */
  ghost function AfterOutput(t: Table, output: Output, callId: Option<CallId>, finalOnly: bool, policy: Policy): Table {
    if output.DuplicateGpu? then t
    else
      var merged := MergeAll(t, OutputRows(output, callId), policy.factor);
      if finalOnly then ReduceTable(merged, policy.pruning) else merged
  }

  ghost function AfterOutputs(t: Table, outputs: seq<Output>, callId: Option<CallId>, finalOnly: bool,
                              policy: Policy): Table
  {
    if outputs == [] then t
    else
      AfterOutput(AfterOutputs(t, outputs[..|outputs| - 1], callId, finalOnly, policy),
                  outputs[|outputs| - 1], callId, finalOnly, policy)
  }

  ghost function AfterShard(t: Table, shard: Shard, finalOnly: bool, policy: Policy): Table {
    if shard.outputs.None? then t.(faults := t.faults + [JobFailed])
    else AfterOutputs(t, shard.outputs.value, shard.callId, finalOnly, policy)
  }

  ghost function AfterShards(t: Table, shards: seq<Shard>, finalOnly: bool, policy: Policy): Table {
    if shards == [] then t
    else AfterShard(AfterShards(t, shards[..|shards| - 1], finalOnly, policy), shards[|shards| - 1], finalOnly, policy)
  }

  lemma MergeIndexed(t: Table, o: Observation, factor: nat)
    requires Indexed(t.order, t.states)
    ensures var t' := MergeOne(t, o, factor);
      Indexed(t'.order, t'.states) && t'.states.Keys == t.states.Keys + {o.row.id}
  {
  }

  lemma MergeStatesOk(t: Table, seen: seq<Observation>, factor: nat, o: Observation)
    requires factor >= 1 && forall id :: id in t.states ==> StateOk(t.states[id], id, factor, seen)
    ensures var t' := MergeOne(t, o, factor);
      forall id :: id in t'.states ==> StateOk(t'.states[id], id, factor, seen + [o])
  {
    var id := o.row.id;
    var t' := MergeOne(t, o, factor);
    MergeRowSafe(if id in t.states then t.states[id] else Created(o.row), o, factor, seen);
    forall i | i in t'.states ensures StateOk(t'.states[i], i, factor, seen + [o]) {
      if i != id {
        assert StateOk(t.states[i], i, factor, seen);
      }
    }
  }

  lemma MergeVerdicts(t: Table, seen: seq<Observation>, factor: nat, o: Observation)
    requires factor >= 1 && forall id :: id in t.states ==> StateOk(t.states[id], id, factor, seen)
    requires forall id :: id in t.states && t.states[id].status.Invalid? ==> FailedSomewhere(id, seen)
    requires t.faults == [] ==> forall id :: id in t.states && t.states[id].status.Measured? ==> NeverInvalid(id, seen)
    requires forall p :: p in seen ==> p.row.id in t.states
    ensures var t' := MergeOne(t, o, factor);
      && (forall id :: id in t'.states && t'.states[id].status.Invalid? ==> FailedSomewhere(id, seen + [o]))
      && (t'.faults == [] ==>
            forall id :: id in t'.states && t'.states[id].status.Measured? ==> NeverInvalid(id, seen + [o]))
  {
    var s := if o.row.id in t.states then t.states[o.row.id] else Created(o.row);
    var t' := MergeOne(t, o, factor);
    MergeRowSafe(s, o, factor, seen);
    forall id | id in t'.states && t'.states[id].status.Invalid? ensures FailedSomewhere(id, seen + [o]) {
      InvalidLater(t.states, id, s, o, factor, seen);
    }
  }

  lemma MergeConsistent(t: Table, history: seq<Shard>, seen: seq<Observation>, factor: nat, o: Observation)
    requires factor >= 1
    requires Consistent(t.order, t.states, history, t.faults, seen, factor)
    ensures var t' := MergeOne(t, o, factor);
      Consistent(t'.order, t'.states, history, t'.faults, seen + [o], factor)
  {
    MergeIndexed(t, o, factor);
    MergeStatesOk(t, seen, factor, o);
    MergeVerdicts(t, seen, factor, o);
  }

  lemma InvalidLater(states: map<Id, State>, id: Id, s: State, o: Observation, factor: nat, seen: seq<Observation>)
    requires s == if o.row.id in states then states[o.row.id] else Created(o.row)
    requires forall i :: i in states && states[i].status.Invalid? ==> FailedSomewhere(i, seen)
    requires id == o.row.id || (id in states && states[id].status.Invalid?)
    ensures s.status.Invalid? ==> FailedSomewhere(o.row.id, seen + [o])
    ensures (if id == o.row.id then MergeRow(s, o, factor).0 else states[id]).status.Invalid? ==>
      FailedSomewhere(id, seen + [o])
  {
    assert (seen + [o])[..|seen|] == seen;
  }

  lemma {:induction false} HistoryBacked(faults: seq<Fault>, seen: seq<Observation>, history: seq<Shard>, shard: Shard)
    requires AllBacked(faults, seen, history)
    ensures AllBacked(faults, seen, history + [shard])
    ensures shard.outputs.None? ==> AllBacked(faults + [JobFailed], seen, history + [shard])
  {
    var later := history + [shard];
    assert shard in later && forall s :: s in history ==> s in later;
    assert (faults + [JobFailed])[..|faults|] == faults;
    if faults != [] {
      HistoryBacked(faults[..|faults| - 1], seen, history, shard);
    }
  }

  lemma {:induction false} AllBackedLater(faults: seq<Fault>, seen: seq<Observation>, o: Observation,
                                          history: seq<Shard>)
    requires AllBacked(faults, seen, history)
    ensures AllBacked(faults, seen + [o], history)
  {
    if faults != [] {
      AllBackedLater(faults[..|faults| - 1], seen, o, history);
      BackedLater(faults[|faults| - 1], seen, o, history);
    }
  }

  lemma MergeBacked(t: Table, history: seq<Shard>, seen: seq<Observation>, factor: nat, o: Observation)
    requires factor >= 1 && Consistent(t.order, t.states, history, t.faults, seen, factor)
    requires AllBacked(t.faults, seen, history)
    ensures AllBacked(MergeOne(t, o, factor).faults, seen + [o], history)
  {
    var s := if o.row.id in t.states then t.states[o.row.id] else Created(o.row);
    var fault := MergeRow(s, o, factor).1;
    InvalidLater(t.states, o.row.id, s, o, factor, seen);
    FaultBacked(s, o, factor, seen, history);
    AllBackedLater(t.faults, seen, o, history);
    if fault.Some? {
      assert (t.faults + [fault.value])[..|t.faults|] == t.faults;
    }
  }

  /** What one merged row may change, and that it leaves timings where they are needed. */
  lemma MergeGrown(t: Table, history: seq<Shard>, seen: seq<Observation>, factor: nat, o: Observation, ids: set<Id>)
    requires factor >= 1 && Consistent(t.order, t.states, history, t.faults, seen, factor) && o.row.id in ids
    ensures var t' := MergeOne(t, o, factor);
      && Grown(t.faults, t.states, t'.faults, t'.states, ids)
      && (Timed(t.states) && (t'.faults == [] || o.row.id in t.states) ==> Timed(t'.states))
  {
    MergeRowSafe(if o.row.id in t.states then t.states[o.row.id] else Created(o.row), o, factor, seen);
  }

  lemma OutputsRowsStep(start: seq<Observation>, outputs: seq<Output>, k: nat, callId: Option<CallId>)
    requires k < |outputs|
    ensures start + OutputsRows(outputs[..k], callId) + OutputRows(outputs[k], callId) ==
            start + OutputsRows(outputs[..k + 1], callId)
  {
    assert outputs[..k + 1][..k] == outputs[..k];
  }

  lemma MergeAllStep(t: Table, os: seq<Observation>, k: nat, factor: nat)
    requires k < |os|
    ensures MergeOne(MergeAll(t, os[..k], factor), os[k], factor) == MergeAll(t, os[..k + 1], factor)
  {
    assert os[..k + 1][..k] == os[..k];
  }

  lemma AfterOutputsStep(t: Table, outputs: seq<Output>, k: nat, callId: Option<CallId>, finalOnly: bool,
                         policy: Policy)
    requires k < |outputs|
    ensures
      AfterOutput(AfterOutputs(t, outputs[..k], callId, finalOnly, policy), outputs[k], callId, finalOnly, policy)
      == AfterOutputs(t, outputs[..k + 1], callId, finalOnly, policy)
  {
    assert outputs[..k + 1][..k] == outputs[..k];
  }

  lemma AfterShardsStep(t: Table, before: seq<Shard>, done: seq<Shard>, shard: Shard, finalOnly: bool, policy: Policy)
    ensures AfterShard(AfterShards(t, done, finalOnly, policy), shard, finalOnly, policy) ==
            AfterShards(t, done + [shard], finalOnly, policy)
    ensures before + done + [shard] == before + (done + [shard])
    ensures multiset(done + [shard]) == multiset(done) + multiset{shard}
  {
    assert (done + [shard])[..|done|] == done;
  }

  /** What the workers answer to the jobs of a wave. */
  function Replies(jobs: seq<Job>, wave: nat, environment: (nat, nat) -> Reply): (shards: seq<Shard>)
    ensures |shards| == |jobs|
    ensures forall i :: 0 <= i < |jobs| ==> shards[i] == Dispatch(jobs[i], environment(wave, i))
  {
    seq(|jobs|, i requires 0 <= i < |jobs| => Dispatch(jobs[i], environment(wave, i)))
  }

  /** The replies that are still to come. */
  function Awaited(replies: seq<Shard>, remaining: set<nat>): multiset<Shard> {
    if replies == [] then multiset{}
    else
      var n := |replies| - 1;
      Awaited(replies[..n], remaining) + if n in remaining then multiset{replies[n]} else multiset{}
  }

  lemma {:induction false} AwaitedStep(replies: seq<Shard>, remaining: set<nat>, i: nat)
    requires i in remaining
    ensures Awaited(replies, remaining) ==
      Awaited(replies, remaining - {i}) + if i < |replies| then multiset{replies[i]} else multiset{}
  {
    if replies != [] {
      AwaitedStep(replies[..|replies| - 1], remaining, i);
    }
  }

  lemma AwaitedNext(replies: seq<Shard>, remaining: set<nat>, i: nat, done: seq<Shard>)
    requires i in remaining && i < |replies| && multiset(done) + Awaited(replies, remaining) == multiset(replies)
    ensures multiset(done + [replies[i]]) + Awaited(replies, remaining - {i}) == multiset(replies)
  {
    AwaitedStep(replies, remaining, i);
  }

  lemma {:induction false} AwaitedAll(replies: seq<Shard>, remaining: set<nat>)
    requires forall i: nat :: i < |replies| ==> i in remaining
    ensures Awaited(replies, remaining) == multiset(replies)
  {
    if replies != [] {
      var n := |replies| - 1;
      AwaitedAll(replies[..n], remaining);
      assert replies == replies[..n] + [replies[n]];
    }
  }

  lemma {:induction false} AwaitedNone(replies: seq<Shard>)
    ensures Awaited(replies, {}) == multiset{}
  {
    if replies != [] {
      AwaitedNone(replies[..|replies| - 1]);
    }
  }

  lemma AttemptedConsistent(order: seq<Id>, states: map<Id, State>, history: seq<Shard>,
                            faults: seq<Fault>, seen: seq<Observation>, factor: nat, ids: seq<Id>)
    requires Consistent(order, states, history, faults, seen, factor)
    ensures Consistent(order, Attempted(states, ids), history, faults, seen, factor)
    ensures Averaged(states) ==> Averaged(Attempted(states, ids))
  {
    var after := Attempted(states, ids);
    forall id | id in after ensures StateOk(after[id], id, factor, seen) {
      assert StateOk(states[id], id, factor, seen);
    }
  }

  predicate Complete(s: State, factor: nat) {
    s.status.Measured? && |s.replicas| == factor
  }

  lemma FirstJobsMade(variants: seq<Variant>, parts: seq<seq<Variant>>, jobs: seq<Job>, size: nat)
    requires Flatten(parts) == variants
    requires forall p :: p in parts ==> 0 < |p| <= size
    requires forall k :: 0 <= k < |parts| - 1 ==> |parts[k]| == size
    requires |jobs| == |parts| && forall k :: 0 <= k < |parts| ==> jobs[k] == Job(parts[k], {})
    ensures FirstJobs(jobs, variants, size)
  {
    assert JobChunks(jobs) == parts;
    forall j | j in jobs ensures j.excluded == {} && 0 < |j.chunk| <= size {
      var k :| 0 <= k < |jobs| && jobs[k] == j;
      assert parts[k] in parts;
    }
  }

  lemma FirstJobsWithin(variants: seq<Variant>, parts: seq<seq<Variant>>, jobs: seq<Job>)
    requires Flatten(parts) == variants
    requires |jobs| == |parts| && forall k :: 0 <= k < |parts| ==> jobs[k] == Job(parts[k], {})
    ensures forall j :: j in jobs ==> j.excluded == {} && Ids(j.chunk) <= Ids(variants)
  {
    FlattenMembers(parts);
    forall j | j in jobs ensures j.excluded == {} && Ids(j.chunk) <= Ids(variants) {
      var k :| 0 <= k < |jobs| && jobs[k] == j;
      assert parts[k] in parts;
    }
  }

  lemma {:induction false} RowsObserved(outputs: seq<Output>, callId: Option<CallId>, output: Output, i: nat)
    requires output in outputs && output.Measurements? && i < |output.rows|
    ensures Observation(output.gpu, callId, output.rows[i]) in OutputsRows(outputs, callId)
  {
    var n := |outputs| - 1;
    InConcat(OutputsRows(outputs[..n], callId), OutputRows(outputs[n], callId),
             Observation(output.gpu, callId, output.rows[i]));
    if output == outputs[n] {
      assert OutputRows(output, callId)[i] == Observation(output.gpu, callId, output.rows[i]);
    } else {
      RowsObserved(outputs[..n], callId, output, i);
    }
  }

  lemma {:induction false} ShardObserved(history: seq<Shard>, shard: Shard, o: Observation)
    requires shard in history && o in ShardRows(shard)
    ensures o in Observations(history)
  {
    var n := |history| - 1;
    InConcat(Observations(history[..n]), ShardRows(history[n]), o);
    if shard != history[n] {
      ShardObserved(history[..n], shard, o);
    }
  }

  /** An accepted reply to a job that excludes no GPU reports every variant of the job. */
  lemma JobObserved(job: Job, reply: Reply, history: seq<Shard>, states: map<Id, State>)
    requires job.excluded == {} && Dispatch(job, reply) in history && Dispatch(job, reply).outputs.Some?
    requires forall o :: o in Observations(history) ==> o.row.id in states
    ensures Ids(job.chunk) <= states.Keys
  {
    var shard := Dispatch(job, reply);
    var output := shard.outputs.value[0];
    assert output in shard.outputs.value && Acceptable(output, job);
    forall id | id in Ids(job.chunk) ensures id in states {
      assert id in RowIds(output.rows);
      var i :| 0 <= i < |output.rows| && output.rows[i].id == id;
      RowsObserved(shard.outputs.value, shard.callId, output, i);
      ShardObserved(history, shard, Observation(output.gpu, shard.callId, output.rows[i]));
    }
  }

  lemma FirstJobsObserved(jobs: seq<Job>, history: seq<Shard>, states: map<Id, State>,
                          environment: (nat, nat) -> Reply)
    requires forall j :: j in jobs ==> j.excluded == {}
    requires multiset(history) == multiset(Replies(jobs, 0, environment))
    requires forall s :: s in history ==> s.outputs.Some?
    requires forall o :: o in Observations(history) ==> o.row.id in states
    ensures forall j :: j in jobs ==> Ids(j.chunk) <= states.Keys
  {
    var replies := Replies(jobs, 0, environment);
    forall j | j in jobs ensures Ids(j.chunk) <= states.Keys {
      var k :| 0 <= k < |jobs| && jobs[k] == j;
      assert replies[k] in multiset(replies) && replies[k] in multiset(history);
      JobObserved(j, environment(0, k), history, states);
    }
  }

  lemma FirstJobsCover(variants: seq<Variant>, jobs: seq<Job>, size: nat, keys: set<Id>)
    requires FirstJobs(jobs, variants, size)
    requires forall j :: j in jobs ==> Ids(j.chunk) <= keys
    ensures Ids(variants) <= keys
  {
    FlattenMembers(JobChunks(jobs));
    forall v | v in variants ensures v.id in keys {
      var p :| p in JobChunks(jobs) && v in p;
      var k :| 0 <= k < |jobs| && jobs[k].chunk == p;
      assert jobs[k] in jobs && v.id in Ids(jobs[k].chunk);
    }
  }

  lemma MeasuredAreComplete(order: seq<Id>, states: map<Id, State>, history: seq<Shard>,
                            seen: seq<Observation>, factor: nat)
    requires Consistent(order, states, history, [], seen, factor)
    requires PendingIds(order, states, factor) == []
    ensures forall id :: id in states ==> (states[id].status.Measured? <==> Complete(states[id], factor))
  {
    forall id | id in states ensures states[id].status.Measured? <==> Complete(states[id], factor) {
      assert StateOk(states[id], id, factor, seen);
      assert id !in PendingIds(order, states, factor);
    }
  }

  lemma VariantsNamed(variants: seq<Variant>)
    ensures forall k :: 0 <= k < |variants| ==> variants[k].id in Ids(variants)
    ensures forall id :: id in Ids(variants) ==> id in ById(variants)
  {
    forall k | 0 <= k < |variants| ensures variants[k].id in Ids(variants) {
      assert variants[k] in variants;
    }
  }

  /** Where the replies to the last jobs begin. */
  function Cut(history: seq<Shard>, jobs: seq<Job>): (cut: nat)
    ensures cut <= |history|
  {
    if |jobs| <= |history| then |history| - |jobs| else 0
  }

  /** The variables that the history determines, given the retry waves. */
  ghost function TableOf(history: seq<Shard>, plans: seq<Plan>, policy: Policy): Table
    decreases |plans|
  {
    if plans == [] then
      var t := AfterShards(EMPTY_TABLE, history, false, policy);
      if t.faults == [] then ReduceTable(t, policy.pruning) else t
    else
      var n := |plans| - 1;
      var cut := Cut(history, plans[n].jobs);
      var before := TableOf(history[..cut], plans[..n], policy);
      AfterShards(before.(states := plans[n].states), history[cut..], true, policy)
  }

  /** A wave retries what was pending when it was planned, and counts an attempt for it. */
  ghost predicate Planned(p: Plan, t: Table, policy: Policy) {
    && t.faults == [] && (forall id :: id in t.order ==> id in t.states)
    && p.pending == PendingIds(t.order, t.states, policy.factor)
    && p.states == Attempted(t.states, p.pending)
  }

  /**
   The history is the replies to the first jobs, and then those to the jobs of every retry
   wave, each in some order.
   */
  ghost predicate Course(history: seq<Shard>, first: seq<Job>, plans: seq<Plan>, policy: Policy,
                         environment: (nat, nat) -> Reply)
    decreases |plans|
  {
    if plans == [] then multiset(history) == multiset(Replies(first, 0, environment))
    else
      var n := |plans| - 1;
      var cut := Cut(history, plans[n].jobs);
      && Course(history[..cut], first, plans[..n], policy, environment)
      && multiset(history[cut..]) == multiset(Replies(plans[n].jobs, cut, environment))
      && Planned(plans[n], TableOf(history[..cut], plans[..n], policy), policy)
  }

  lemma CourseStarts(history: seq<Shard>, first: seq<Job>, policy: Policy, environment: (nat, nat) -> Reply)
    requires multiset(history) == multiset(Replies(first, 0, environment))
    ensures Course(history, first, [], policy, environment)
    ensures TableOf(history, [], policy) ==
      var t := AfterShards(EMPTY_TABLE, history, false, policy);
      if t.faults == [] then ReduceTable(t, policy.pruning) else t
  {
  }

  lemma CourseNext(history: seq<Shard>, done: seq<Shard>, first: seq<Job>, plans: seq<Plan>, p: Plan,
                   policy: Policy, environment: (nat, nat) -> Reply)
    requires Course(history, first, plans, policy, environment)
    requires Planned(p, TableOf(history, plans, policy), policy)
    requires multiset(done) == multiset(Replies(p.jobs, |history|, environment))
    ensures Course(history + done, first, plans + [p], policy, environment)
    ensures TableOf(history + done, plans + [p], policy) ==
      AfterShards(TableOf(history, plans, policy).(states := p.states), done, true, policy)
  {
    assert |multiset(done)| == |multiset(Replies(p.jobs, |history|, environment))|;
    assert (plans + [p])[..|plans|] == plans;
    assert (history + done)[..|history|] == history && (history + done)[|history|..] == done;
  }

  /** The first jobs slice the variants and exclude no GPU. */
  ghost predicate FirstJobs(jobs: seq<Job>, variants: seq<Variant>, size: nat) {
    && Flatten(JobChunks(jobs)) == variants
    && (forall j :: j in jobs ==> j.excluded == {} && 0 < |j.chunk| <= size)
    && forall k :: 0 <= k < |jobs| - 1 ==> |jobs[k].chunk| == size
  }

  function JobChunks(jobs: seq<Job>): (chunks: seq<seq<Variant>>)
    ensures |chunks| == |jobs| && forall k :: 0 <= k < |jobs| ==> chunks[k] == jobs[k].chunk
  {
    seq(|jobs|, k requires 0 <= k < |jobs| => jobs[k].chunk)
  }

  /** The number of replies in the history once these retry waves are over. */
  function Reached(first: seq<Job>, plans: seq<Plan>): (n: nat)
    ensures n >= |first|
  {
    if plans == [] then |first| else Reached(first, plans[..|plans| - 1]) + |plans[|plans| - 1].jobs|
  }

  /** Retry wave `k`: what it planned, and its stretch of the history. */
  ghost predicate WaveRan(history: seq<Shard>, first: seq<Job>, plans: seq<Plan>, k: nat, policy: Policy,
                          environment: (nat, nat) -> Reply)
    requires k < |plans|
  {
    var start, end := Reached(first, plans[..k]), Reached(first, plans[..k + 1]);
    && start <= end <= |history|
    && multiset(history[start..end]) == multiset(Replies(plans[k].jobs, start, environment))
    && Planned(plans[k], TableOf(history[..start], plans[..k], policy), policy)
  }

  lemma WaveRanLater(history: seq<Shard>, cut: nat, first: seq<Job>, plans: seq<Plan>, k: nat,
                     policy: Policy, environment: (nat, nat) -> Reply)
    requires k < |plans| - 1 && cut <= |history|
    requires WaveRan(history[..cut], first, plans[..|plans| - 1], k, policy, environment)
    ensures WaveRan(history, first, plans, k, policy, environment)
  {
    var n := |plans| - 1;
    var start, end := Reached(first, plans[..k]), Reached(first, plans[..k + 1]);
    assert plans[..n][..k] == plans[..k] && plans[..n][..k + 1] == plans[..k + 1];
    assert history[..cut][start..end] == history[start..end] && history[..cut][..start] == history[..start];
  }

  /**
   The waves of a run. Wave k retries exactly what was pending after the replies before
   it, all of it on its k-th attempt; its jobs partition that, exclude exactly the GPUs
   their members were measured on by then, and are answered once each, after the jobs of
   the waves before; and what is pending only shrinks.
   */
  lemma {:induction false} WavesPartitionPending(history: seq<Shard>, first: seq<Job>, plans: seq<Plan>, policy: Policy,
                                                 environment: (nat, nat) -> Reply)
    requires PlansOk(plans, policy) && Course(history, first, plans, policy, environment)
    ensures |plans| <= policy.maxAttempts || plans == []
    ensures |history| == Reached(first, plans)
    ensures multiset(history[..|first|]) == multiset(Replies(first, 0, environment))
    ensures forall k: nat :: k < |plans| ==>
      PlanOk(plans[k], k, policy) && WaveRan(history, first, plans, k, policy, environment)
    ensures forall j, k, id :: 0 <= j < k < |plans| && id in plans[k].pending ==> id in plans[j].pending
  {
    CourseReached(history, first, plans, policy, environment);
    PendingShrinks(plans, policy);
    forall k: nat | k < |plans| ensures WaveRan(history, first, plans, k, policy, environment) {
      EachWaveRan(history, first, plans, k, policy, environment);
    }
  }

  lemma {:induction false} CourseReached(history: seq<Shard>, first: seq<Job>, plans: seq<Plan>, policy: Policy,
                                         environment: (nat, nat) -> Reply)
    requires Course(history, first, plans, policy, environment)
    ensures |history| == Reached(first, plans)
    ensures multiset(history[..|first|]) == multiset(Replies(first, 0, environment))
    decreases |plans|
  {
    if plans == [] {
      assert |multiset(history)| == |multiset(Replies(first, 0, environment))|;
      assert history[..|first|] == history;
    } else {
      var n := |plans| - 1;
      var cut := Cut(history, plans[n].jobs);
      CourseReached(history[..cut], first, plans[..n], policy, environment);
      assert |multiset(history[cut..])| == |multiset(Replies(plans[n].jobs, cut, environment))|;
      assert history[..|first|] == history[..cut][..|first|];
    }
  }

  lemma {:induction false} PendingShrinks(plans: seq<Plan>, policy: Policy)
    requires PlansOk(plans, policy)
    ensures |plans| <= policy.maxAttempts || plans == []
    ensures forall k :: 0 <= k < |plans| ==> PlanOk(plans[k], k, policy)
    ensures forall j, k, id :: 0 <= j < k < |plans| && id in plans[k].pending ==> id in plans[j].pending
  {
    if plans != [] {
      var before, last := plans[..|plans| - 1], plans[|plans| - 1];
      PendingShrinks(before, policy);
      assert plans == before + [last];
      forall j, id | 0 <= j < |plans| - 1 && id in last.pending ensures id in plans[j].pending {
        assert before[j] in before;
      }
    }
  }

  /** The last wave of a course, and the course before it. */
  lemma CourseLast(history: seq<Shard>, first: seq<Job>, plans: seq<Plan>, policy: Policy,
                   environment: (nat, nat) -> Reply)
    returns (start: nat)
    requires plans != [] && Course(history, first, plans, policy, environment)
    ensures start <= |history| && Course(history[..start], first, plans[..|plans| - 1], policy, environment)
    ensures start == Reached(first, plans[..|plans| - 1]) && |history| == Reached(first, plans)
    ensures multiset(history[start..]) == multiset(Replies(plans[|plans| - 1].jobs, start, environment))
    ensures Planned(plans[|plans| - 1], TableOf(history[..start], plans[..|plans| - 1], policy), policy)
  {
    start := Cut(history, plans[|plans| - 1].jobs);
    CourseReached(history, first, plans, policy, environment);
    CourseReached(history[..start], first, plans[..|plans| - 1], policy, environment);
  }

  lemma {:induction false} EachWaveRan(history: seq<Shard>, first: seq<Job>, plans: seq<Plan>, k: nat, policy: Policy,
                                       environment: (nat, nat) -> Reply)
    requires Course(history, first, plans, policy, environment) && k < |plans|
    ensures WaveRan(history, first, plans, k, policy, environment)
    decreases |plans|
  {
    var start := CourseLast(history, first, plans, policy, environment);
    if k == |plans| - 1 {
      LastWaveRan(history, first, plans, start, policy, environment);
    } else {
      EachWaveRan(history[..start], first, plans[..|plans| - 1], k, policy, environment);
      WaveRanLater(history, start, first, plans, k, policy, environment);
    }
  }

  lemma LastWaveRan(history: seq<Shard>, first: seq<Job>, plans: seq<Plan>, start: nat, policy: Policy,
                    environment: (nat, nat) -> Reply)
    requires plans != [] && start == Reached(first, plans[..|plans| - 1]) && |history| == Reached(first, plans)
    requires start <= |history|
    requires multiset(history[start..]) == multiset(Replies(plans[|plans| - 1].jobs, start, environment))
    requires Planned(plans[|plans| - 1], TableOf(history[..start], plans[..|plans| - 1], policy), policy)
    ensures WaveRan(history, first, plans, |plans| - 1, policy, environment)
  {
    assert plans[..|plans|] == plans && history[start..|history|] == history[start..];
  }

  /** Something is not measured often enough. */
  ghost predicate SomePending(t: Table, factor: nat) {
    exists id :: id in t.states && IsPending(t.states[id], factor)
  }

  /** What a passing run guarantees about its winner. */
  ghost predicate Passed(p: Report, variants: seq<Variant>, states: map<Id, State>, history: seq<Shard>, factor: nat) {
    && states.Keys == Ids(variants)
    && p.bestId in states
    && Winner(states[p.bestId], p.bestRuntime, Observations(history), factor)
    && (forall id :: id in states && states[id].status.Measured? ==>
          |states[id].replicas| == factor && states[id].replicas != []
          && p.bestRuntime <= Mean(states[id].replicas))
    && (forall s :: s in history ==> s.outputs.Some?)
    && |p.results| == |variants|
    && (forall i :: 0 <= i < |variants| ==> variants[i].id in states && p.results[i] == states[variants[i].id])
    && p.bestConfiguration in variants && p.bestConfiguration.id == p.bestId
  }

  /** All replicas on distinct GPUs, each reported by a worker; the exact mean; no failed evaluation anywhere. */
  ghost predicate Winner(w: State, runtime: real, seen: seq<Observation>, factor: nat) {
    && w.status.Measured?
    && |w.replicas| == factor && w.replicas != []
    && DistinctGpus(w.replicas)
    && (forall r :: r in w.replicas ==> Observation(r.gpu, r.callId, Row(w.id, Measured, Some(r.runtime))) in seen)
    && runtime == Mean(w.replicas)
    && NeverInvalid(w.id, seen)
  }

  lemma WinnerFound(order: seq<Id>, states: map<Id, State>, history: seq<Shard>,
                    seen: seq<Observation>, factor: nat, id: Id)
    requires Consistent(order, states, history, [], seen, factor) && Averaged(states)
    requires id in states && Complete(states[id], factor)
    ensures Winner(states[id], states[id].runtime.value, seen, factor)
  {
    assert StateOk(states[id], id, factor, seen);
  }

  function Lookup(variants: seq<Variant>, states: map<Id, State>): (r: seq<State>)
    requires forall k :: 0 <= k < |variants| ==> variants[k].id in states
    ensures |r| == |variants| && forall k :: 0 <= k < |variants| ==> r[k] == states[variants[k].id]
  {
    seq(|variants|, k requires 0 <= k < |variants| => states[variants[k].id])
  }

  lemma WavePlanned(order: seq<Id>, states: map<Id, State>, pending: seq<Id>, jobs: seq<Job>,
                    plans: seq<Plan>, policy: Policy)
    requires Indexed(order, states)
    requires pending == PendingIds(order, states, policy.factor)
    requires PlansOk(plans, policy) && |plans| < policy.maxAttempts
    requires forall id :: id in pending ==> states[id].attempts == |plans|
    requires forall p, id :: p in plans && id in pending ==> id in p.pending
    requires Partitions(jobs, pending, Attempted(states, pending), policy.jobSize)
    ensures PlansOk(plans + [Plan(pending, jobs, Attempted(states, pending))], policy)
    ensures forall j :: j in jobs ==> Ids(j.chunk) <= states.Keys
  {
    PendingDistinct(order, states, policy.factor);
    var p := Plan(pending, jobs, Attempted(states, pending));
    assert PlanOk(p, |plans|, policy);
    assert (plans + [p])[..|plans|] == plans;
  }

  /** No configuration becomes pending again, and what stays pending has one more attempt. */
  lemma NextWave(order: seq<Id>, states: map<Id, State>, pending: seq<Id>, order': seq<Id>, states': map<Id, State>,
                 plans: seq<Plan>, factor: nat, jobs: seq<Job>)
    requires Indexed(order, states) && Indexed(order', states')
    requires pending == PendingIds(order, states, factor)
    requires Evolved(Attempted(states, pending), states') && states'.Keys == states.Keys
    requires forall id :: id in pending ==> states[id].attempts == |plans|
    requires forall p, id :: p in plans && id in pending ==> id in p.pending
    ensures var pending' := PendingIds(order', states', factor);
      var plans' := plans + [Plan(pending, jobs, Attempted(states, pending))];
      && (forall id :: id in pending' ==> states'[id].attempts == |plans'|)
      && forall p, id :: p in plans' && id in pending' ==> id in p.pending
  {
    var attempted := Attempted(states, pending);
    forall id | id in PendingIds(order', states', factor)
      ensures id in pending && states'[id].attempts == |plans| + 1
    {
      assert Later(attempted[id], states'[id]);
    }
  }

  // ------------------------------------------------------- what is recorded

  /** The first `factor` measured rows of a configuration, in the order in which they were merged. */
  function FirstTimings(id: Id, seen: seq<Observation>, factor: nat): seq<Observation> {
    if seen == [] then []
    else
      var before, last := FirstTimings(id, seen[..|seen| - 1], factor), seen[|seen| - 1];
      if |before| < factor && last.row.id == id && last.row.status.Measured? then before + [last] else before
  }

  /** The status of its last row that was not measured and came before the last of these; Measured if there is none. */
  function LastStatus(id: Id, seen: seq<Observation>, factor: nat): Status {
    if seen == [] then Measured
    else
      var init, last := seen[..|seen| - 1], seen[|seen| - 1];
      if |FirstTimings(id, init, factor)| < factor && last.row.id == id && !last.row.status.Measured?
      then last.row.status else LastStatus(id, init, factor)
  }

  /** The replicas are these rows. */
  ghost predicate Timings(replicas: seq<Replica>, rows: seq<Observation>, id: Id) {
    && |replicas| == |rows|
    && forall k :: 0 <= k < |rows| ==>
      rows[k] == Observation(replicas[k].gpu, replicas[k].callId, Row(id, Measured, Some(replicas[k].runtime)))
  }

  /** A configuration holds exactly its first timings, and has its last status unless it was pruned. */
  ghost predicate Exact(s: State, id: Id, seen: seq<Observation>, factor: nat) {
    && Timings(s.replicas, FirstTimings(id, seen, factor), id)
    && var status := LastStatus(id, seen, factor);
       s.status == status || (status.Measured? && s.status.GloballyPruned?)
  }

  /** A positive timing of a configuration. */
  predicate Timing(o: Observation, id: Id) {
    o.row.id == id && o.row.status.Measured? && o.row.runtime.Some? && o.row.runtime.value > 0.0
  }

  /** A positive timing counts, unless there are enough, its GPU has one already, or an evaluation failed somewhere. */
  ghost predicate NoneDropped(s: State, id: Id, seen: seq<Observation>, factor: nat) {
    forall o :: o in seen && Timing(o, id) ==>
      |s.replicas| >= factor || o.gpu in Gpus(s.replicas) || FailedSomewhere(id, seen)
  }

  /**
   A row that is no reason for a fault: no failed evaluation after a timing, and no
   measured one after a failed evaluation; and while more timings are needed, a measured
   one is positive and from another GPU.
   */
  ghost predicate Clean(o: Observation, seen: seq<Observation>, factor: nat) {
    var id, rows := o.row.id, FirstTimings(o.row.id, seen, factor);
    && (o.row.status.Invalid? ==> rows == [])
    && (o.row.status.Measured? ==> !LastStatus(id, seen, factor).Invalid?)
    && (o.row.status.Measured? && |rows| < factor ==>
          Timing(o, id) && forall k :: 0 <= k < |rows| ==> rows[k].gpu != o.gpu)
  }

  ghost predicate AllClean(seen: seq<Observation>, factor: nat) {
    seen != [] ==> AllClean(seen[..|seen| - 1], factor) && Clean(seen[|seen| - 1], seen[..|seen| - 1], factor)
  }

  lemma {:induction false} CleanAt(seen: seq<Observation>, k: nat, factor: nat)
    requires AllClean(seen, factor) && k < |seen|
    ensures Clean(seen[k], seen[..k], factor)
  {
    var n := |seen| - 1;
    if k < n {
      CleanAt(seen[..n], k, factor);
      CleanPrefix(seen, n, k, factor);
    }
  }

  lemma {:induction false} CleanFrom(seen: seq<Observation>, factor: nat)
    requires forall k: nat :: k < |seen| ==> Clean(seen[k], seen[..k], factor)
    ensures AllClean(seen, factor)
  {
    if seen != [] {
      var n := |seen| - 1;
      forall k: nat | k < n ensures Clean(seen[..n][k], seen[..n][..k], factor) {
        CleanPrefix(seen, n, k, factor);
      }
      CleanFrom(seen[..n], factor);
    }
  }

  lemma AllCleanMeaning(seen: seq<Observation>, factor: nat)
    ensures AllClean(seen, factor) <==> forall k: nat :: k < |seen| ==> Clean(seen[k], seen[..k], factor)
  {
    if AllClean(seen, factor) {
      forall k: nat | k < |seen| ensures Clean(seen[k], seen[..k], factor) {
        CleanAt(seen, k, factor);
      }
    } else if forall k: nat :: k < |seen| ==> Clean(seen[k], seen[..k], factor) {
      CleanFrom(seen, factor);
    }
  }

  lemma CleanPrefix(seen: seq<Observation>, n: nat, k: nat, factor: nat)
    requires k < n <= |seen|
    ensures Clean(seen[..n][k], seen[..n][..k], factor) <==> Clean(seen[k], seen[..k], factor)
  {
    assert seen[..n][..k] == seen[..k];
  }

  lemma CleanNext(seen: seq<Observation>, o: Observation, factor: nat)
    ensures AllClean(seen + [o], factor) <==> AllClean(seen, factor) && Clean(o, seen, factor)
  {
    assert (seen + [o])[..|seen|] == seen;
  }

  /** What is held of one configuration, in terms of the rows that were merged. */
  ghost predicate TrackedState(s: State, id: Id, faultless: bool, seen: seq<Observation>, factor: nat) {
    && s.id == id && (s.status.Invalid? ==> FailedSomewhere(id, seen))
    && NoneDropped(s, id, seen, factor) && (faultless ==> Exact(s, id, seen, factor))
  }

  /** What is held of every configuration. */
  ghost predicate Tracked(t: Table, seen: seq<Observation>, factor: nat) {
    && (forall o :: o in seen ==> o.row.id in t.states)
    && (forall id :: id in t.states ==> TrackedState(t.states[id], id, t.faults == [], seen, factor))
    && (t.faults == [] <==> AllClean(seen, factor) && JobFailed !in t.faults)
  }

  /** A row of another configuration changes nothing for this one. */
  lemma OtherRow(id: Id, seen: seq<Observation>, o: Observation, factor: nat)
    ensures o.row.id != id ==>
      FirstTimings(id, seen + [o], factor) == FirstTimings(id, seen, factor) &&
      LastStatus(id, seen + [o], factor) == LastStatus(id, seen, factor)
    ensures FailedSomewhere(id, seen + [o]) <==>
      FailedSomewhere(id, seen) || (o.row.id == id && o.row.status.Invalid?)
  {
    assert (seen + [o])[..|seen|] == seen;
  }

  /** Without a row so far, there are no timings. */
  lemma {:induction false} NoRows(id: Id, seen: seq<Observation>, factor: nat)
    requires forall o :: o in seen ==> o.row.id != id
    ensures FirstTimings(id, seen, factor) == [] && LastStatus(id, seen, factor) == Measured
    ensures !FailedSomewhere(id, seen)
  {
    if seen != [] {
      NoRows(id, seen[..|seen| - 1], factor);
    }
  }

  lemma NoneDroppedNext(s: State, o: Observation, seen: seq<Observation>, factor: nat)
    requires s.id == o.row.id && NoneDropped(s, s.id, seen, factor)
    requires s.status.Invalid? ==> FailedSomewhere(s.id, seen + [o])
    ensures NoneDropped(MergeRow(s, o, factor).0, s.id, seen + [o], factor)
  {
    var t, id := MergeRow(s, o, factor).0, s.id;
    OtherRow(id, seen, o, factor);
    if t.replicas != s.replicas {
      var r := t.replicas[|s.replicas|];
      assert r in t.replicas && r.gpu == o.gpu;
      assert forall q :: q in s.replicas ==> q in t.replicas;
    }
    forall p | p in seen + [o] && Timing(p, id)
      ensures |t.replicas| >= factor || p.gpu in Gpus(t.replicas) || FailedSomewhere(id, seen + [o])
    {
      if p in seen && p.gpu in Gpus(s.replicas) {
        assert p.gpu in Gpus(t.replicas);
      }
    }
  }

  lemma ExactNext(s: State, o: Observation, seen: seq<Observation>, factor: nat)
    requires factor >= 1 && s.id == o.row.id && Timings(s.replicas, FirstTimings(s.id, seen, factor), s.id)
    requires Exact(s, s.id, seen, factor) || (s == Created(o.row) && LastStatus(s.id, seen, factor).Measured?)
    requires MergeRow(s, o, factor).1.None?
    ensures Exact(MergeRow(s, o, factor).0, s.id, seen + [o], factor)
  {
    assert (seen + [o])[..|seen|] == seen;
  }

  /** A row of a configuration raises a fault exactly if it is a reason for one. */
  lemma CleanExactly(s: State, o: Observation, seen: seq<Observation>, factor: nat)
    requires factor >= 1 && s.id == o.row.id && Timings(s.replicas, FirstTimings(s.id, seen, factor), s.id)
    requires Exact(s, s.id, seen, factor) || (s == Created(o.row) && LastStatus(s.id, seen, factor).Measured?)
    ensures MergeRow(s, o, factor).1.None? <==> Clean(o, seen, factor)
  {
    var rows := FirstTimings(s.id, seen, factor);
    if o.gpu in Gpus(s.replicas) {
      var r :| r in s.replicas && r.gpu == o.gpu;
      var k :| 0 <= k < |s.replicas| && s.replicas[k] == r;
      assert rows[k].gpu == o.gpu;
    } else {
      forall k | 0 <= k < |rows| ensures rows[k].gpu != o.gpu {
        assert s.replicas[k] in s.replicas;
      }
    }
  }

  lemma KnownNext(s: State, o: Observation, faultless: bool, seen: seq<Observation>, factor: nat)
    requires factor >= 1 && TrackedState(s, o.row.id, faultless, seen, factor)
    ensures var (t, fault) := MergeRow(s, o, factor);
      && TrackedState(t, o.row.id, faultless && fault.None?, seen + [o], factor)
      && (faultless ==> (fault.None? <==> Clean(o, seen, factor)))
  {
    OtherRow(s.id, seen, o, factor);
    NoneDroppedNext(s, o, seen, factor);
    if faultless {
      CleanExactly(s, o, seen, factor);
      if MergeRow(s, o, factor).1.None? {
        ExactNext(s, o, seen, factor);
      }
    }
  }

  lemma CreatedNext(o: Observation, seen: seq<Observation>, factor: nat)
    requires factor >= 1 && forall p :: p in seen ==> p.row.id != o.row.id
    ensures var (t, fault) := MergeRow(Created(o.row), o, factor);
      TrackedState(t, o.row.id, fault.None?, seen + [o], factor) && (fault.None? <==> Clean(o, seen, factor))
  {
    var s := Created(o.row);
    NoRows(s.id, seen, factor);
    CreatedStatus(o, seen, factor);
    NoneDroppedNext(s, o, seen, factor);
    CleanExactly(s, o, seen, factor);
    if MergeRow(s, o, factor).1.None? {
      ExactNext(s, o, seen, factor);
    }
  }

  lemma CreatedStatus(o: Observation, seen: seq<Observation>, factor: nat)
    requires factor >= 1
    ensures var t := MergeRow(Created(o.row), o, factor).0;
      t.id == o.row.id && t.status == o.row.status
    ensures o.row.status.Invalid? ==> FailedSomewhere(o.row.id, seen + [o])
  {
    OtherRow(o.row.id, seen, o, factor);
  }

  lemma OtherState(s: State, id: Id, faultless: bool, o: Observation, seen: seq<Observation>, factor: nat)
    requires TrackedState(s, id, faultless, seen, factor) && o.row.id != id
    ensures TrackedState(s, id, faultless, seen + [o], factor)
  {
    OtherRow(id, seen, o, factor);
  }

  /** The state that a row is merged into, or creates. */
  function Target(t: Table, o: Observation): State {
    if o.row.id in t.states then t.states[o.row.id] else Created(o.row)
  }

  lemma TargetNext(t: Table, o: Observation, seen: seq<Observation>, factor: nat)
    requires factor >= 1 && Tracked(t, seen, factor)
    ensures var (s, fault) := MergeRow(Target(t, o), o, factor);
      && TrackedState(s, o.row.id, t.faults == [] && fault.None?, seen + [o], factor)
      && (t.faults == [] ==> (fault.None? <==> Clean(o, seen, factor)))
  {
    if o.row.id in t.states {
      assert TrackedState(t.states[o.row.id], o.row.id, t.faults == [], seen, factor);
      KnownNext(t.states[o.row.id], o, t.faults == [], seen, factor);
    } else {
      CreatedNext(o, seen, factor);
    }
  }

  lemma OthersNext(t: Table, o: Observation, seen: seq<Observation>, factor: nat, faultless: bool, i: Id)
    requires Tracked(t, seen, factor) && i in t.states && i != o.row.id && (faultless ==> t.faults == [])
    ensures TrackedState(t.states[i], i, faultless, seen + [o], factor)
  {
    assert TrackedState(t.states[i], i, t.faults == [], seen, factor);
    OtherState(t.states[i], i, faultless, o, seen, factor);
  }

  lemma TrackedMerge(t: Table, o: Observation, seen: seq<Observation>, factor: nat)
    requires factor >= 1 && Tracked(t, seen, factor)
    ensures Tracked(MergeOne(t, o, factor), seen + [o], factor)
  {
    var t', fault := MergeOne(t, o, factor), MergeRow(Target(t, o), o, factor).1;
    TargetNext(t, o, seen, factor);
    CleanNext(seen, o, factor);
    FaultsNext(t.faults, fault);
    assert t'.faults == if fault.Some? then t.faults + [fault.value] else t.faults;
    forall i | i in t'.states
      ensures TrackedState(t'.states[i], i, t'.faults == [], seen + [o], factor)
    {
      if i != o.row.id {
        OthersNext(t, o, seen, factor, t'.faults == [], i);
      }
    }
  }

  lemma FaultsNext(faults: seq<Fault>, fault: Option<Fault>)
    ensures var after := if fault.Some? then faults + [fault.value] else faults;
      && (after == [] <==> faults == [] && fault.None?)
      && (JobFailed in after <==> JobFailed in faults || fault == Some(JobFailed))
  {
  }

  lemma TrackedReduced(s: State, id: Id, faultless: bool, seen: seq<Observation>, factor: nat, best: real,
                       pruning: Option<Pruning>)
    requires TrackedState(s, id, faultless, seen, factor) && (s.status.Measured? ==> s.replicas != [])
    ensures TrackedState(ReduceState(s, best, pruning), id, faultless, seen, factor)
  {
  }

  lemma TrackedReduce(t: Table, seen: seq<Observation>, factor: nat, pruning: Option<Pruning>)
    requires Tracked(t, seen, factor)
    ensures Tracked(ReduceTable(t, pruning), seen, factor)
  {
    if Timed(t.states) && (forall id :: id in t.order ==> id in t.states) && LeastMean(t.order, t.states).Some? {
      var best, after := LeastMean(t.order, t.states).value, ReduceTable(t, pruning).states;
      forall id | id in t.states
        ensures TrackedState(after[id], id, t.faults == [], seen, factor)
      {
        assert TrackedState(t.states[id], id, t.faults == [], seen, factor);
        TrackedReduced(t.states[id], id, t.faults == [], seen, factor, best, pruning);
      }
    }
  }

  lemma {:induction false} TrackedRows(t: Table, os: seq<Observation>, seen: seq<Observation>, factor: nat)
    requires factor >= 1 && Tracked(t, seen, factor)
    ensures Tracked(MergeAll(t, os, factor), seen + os, factor)
  {
    if os == [] {
      ConcatEmpty(seen);
    } else {
      var n := |os| - 1;
      TrackedRows(t, os[..n], seen, factor);
      TrackedMerge(MergeAll(t, os[..n], factor), os[n], seen + os[..n], factor);
      TakeStep(seen, os, n);
      assert os[..n + 1] == os;
    }
  }

  lemma TrackedOutput(t: Table, output: Output, callId: Option<CallId>, finalOnly: bool, policy: Policy,
                      seen: seq<Observation>)
    requires policy.factor >= 1 && Tracked(t, seen, policy.factor)
    ensures Tracked(AfterOutput(t, output, callId, finalOnly, policy), seen + OutputRows(output, callId), policy.factor)
  {
    var rows := OutputRows(output, callId);
    if output.DuplicateGpu? {
      ConcatEmpty(seen);
    } else {
      TrackedRows(t, rows, seen, policy.factor);
      TrackedReduce(MergeAll(t, rows, policy.factor), seen + rows, policy.factor, policy.pruning);
    }
  }

  lemma {:induction false} TrackedOutputs(t: Table, outputs: seq<Output>, callId: Option<CallId>, finalOnly: bool,
                                          policy: Policy, seen: seq<Observation>)
    requires policy.factor >= 1 && Tracked(t, seen, policy.factor)
    ensures Tracked(AfterOutputs(t, outputs, callId, finalOnly, policy), seen + OutputsRows(outputs, callId),
                    policy.factor)
  {
    if outputs == [] {
      ConcatEmpty(seen);
    } else {
      var n := |outputs| - 1;
      var before, rows := OutputsRows(outputs[..n], callId), OutputRows(outputs[n], callId);
      TrackedOutputs(t, outputs[..n], callId, finalOnly, policy, seen);
      TrackedOutput(AfterOutputs(t, outputs[..n], callId, finalOnly, policy), outputs[n], callId, finalOnly, policy,
                    seen + before);
      ConcatAssociative(seen, before, rows);
    }
  }

  lemma TrackedShard(t: Table, shard: Shard, finalOnly: bool, policy: Policy, seen: seq<Observation>)
    requires policy.factor >= 1 && Tracked(t, seen, policy.factor)
    ensures Tracked(AfterShard(t, shard, finalOnly, policy), seen + ShardRows(shard), policy.factor)
  {
    if shard.outputs.None? {
      ConcatEmpty(seen);
    } else {
      TrackedOutputs(t, shard.outputs.value, shard.callId, finalOnly, policy, seen);
    }
  }

  lemma {:induction false} TrackedShards(t: Table, shards: seq<Shard>, finalOnly: bool, policy: Policy,
                                         seen: seq<Observation>)
    requires policy.factor >= 1 && Tracked(t, seen, policy.factor)
    ensures Tracked(AfterShards(t, shards, finalOnly, policy), seen + Observations(shards), policy.factor)
  {
    if shards == [] {
      ConcatEmpty(seen);
    } else {
      var n := |shards| - 1;
      TrackedShards(t, shards[..n], finalOnly, policy, seen);
      TrackedShard(AfterShards(t, shards[..n], finalOnly, policy), shards[n], finalOnly, policy,
                   seen + Observations(shards[..n]));
      ConcatAssociative(seen, Observations(shards[..n]), ShardRows(shards[n]));
    }
  }

  lemma TakeInit(a: seq<Shard>, b: seq<Shard>)
    requires b != []
    ensures a + b != [] && (a + b)[..|a + b| - 1] == a + b[..|b| - 1] && (a + b)[|a + b| - 1] == b[|b| - 1]
  {
  }

  lemma {:induction false} ObservationsConcat(a: seq<Shard>, b: seq<Shard>)
    ensures Observations(a + b) == Observations(a) + Observations(b)
  {
    if b == [] {
      ConcatEmpty(a);
      ConcatEmpty(Observations(a));
    } else {
      var init, last := b[..|b| - 1], b[|b| - 1];
      ObservationsConcat(a, init);
      TakeInit(a, b);
      ConcatAssociative(Observations(a), Observations(init), ShardRows(last));
    }
  }

  lemma TrackedAttempts(t: Table, ids: seq<Id>, seen: seq<Observation>, factor: nat)
    requires Tracked(t, seen, factor)
    ensures Tracked(t.(states := Attempted(t.states, ids)), seen, factor)
  {
    var after := Attempted(t.states, ids);
    forall id | id in t.states
      ensures TrackedState(after[id], id, t.faults == [], seen, factor)
    {
      assert TrackedState(t.states[id], id, t.faults == [], seen, factor);
    }
  }

  /**
   What a run holds of each configuration, in terms of the rows that the workers
   reported: no positive timing is dropped for nothing, and without a fault its
   replicas are exactly its first measured rows, and its status is the last that a row
   gave it, or a measured one was pruned. And there is no fault exactly if no row is a
   reason for one and no job failed.
   */
  lemma {:induction false} TimingsRecorded(history: seq<Shard>, first: seq<Job>, plans: seq<Plan>, policy: Policy,
                                           environment: (nat, nat) -> Reply)
    requires Course(history, first, plans, policy, environment)
    requires policy.factor >= 1
    ensures Tracked(TableOf(history, plans, policy), Observations(history), policy.factor)
    decreases |plans|
  {
    if plans == [] {
      TrackedStart(history, policy);
    } else {
      var n := |plans| - 1;
      var cut := Cut(history, plans[n].jobs);
      TimingsRecorded(history[..cut], first, plans[..n], policy, environment);
      TrackedWave(TableOf(history[..cut], plans[..n], policy), plans[n], history, cut, policy);
    }
  }

  lemma TrackedStart(history: seq<Shard>, policy: Policy)
    requires policy.factor >= 1
    ensures Tracked(TableOf(history, [], policy), Observations(history), policy.factor)
  {
    var rows := Observations(history);
    TrackedShards(EMPTY_TABLE, history, false, policy, []);
    assert [] + rows == rows;
    TrackedReduce(AfterShards(EMPTY_TABLE, history, false, policy), rows, policy.factor, policy.pruning);
  }

  lemma TrackedWave(before: Table, p: Plan, history: seq<Shard>, cut: nat, policy: Policy)
    requires cut <= |history| && policy.factor >= 1 && Planned(p, before, policy)
    requires Tracked(before, Observations(history[..cut]), policy.factor)
    ensures Tracked(AfterShards(before.(states := p.states), history[cut..], true, policy), Observations(history),
                    policy.factor)
  {
    TrackedAttempts(before, p.pending, Observations(history[..cut]), policy.factor);
    TrackedShards(before.(states := p.states), history[cut..], true, policy, Observations(history[..cut]));
    ObservationsCut(history, cut);
  }

  lemma ObservationsCut(history: seq<Shard>, cut: nat)
    requires cut <= |history|
    ensures Observations(history) == Observations(history[..cut]) + Observations(history[cut..])
  {
    CutJoin(history, cut);
    ObservationsConcat(history[..cut], history[cut..]);
  }

  lemma CutJoin(history: seq<Shard>, cut: nat)
    requires cut <= |history|
    ensures history[..cut] + history[cut..] == history
  {
  }

  /** Jobs that failed are among the faults. */
  lemma {:induction false} JobFailures(t: Table, shards: seq<Shard>, finalOnly: bool, policy: Policy)
    ensures JobFailed in AfterShards(t, shards, finalOnly, policy).faults <==>
      JobFailed in t.faults || exists s :: s in shards && s.outputs.None?
  {
    if shards != [] {
      var init, last := shards[..|shards| - 1], shards[|shards| - 1];
      JobFailures(t, init, finalOnly, policy);
      ShardFailure(AfterShards(t, init, finalOnly, policy), last, finalOnly, policy);
      assert forall s :: s in shards <==> s in init || s == last;
    }
  }

  lemma ShardFailure(t: Table, shard: Shard, finalOnly: bool, policy: Policy)
    ensures JobFailed in AfterShard(t, shard, finalOnly, policy).faults <==>
      JobFailed in t.faults || shard.outputs.None?
  {
    if shard.outputs.Some? {
      OutputsFailNothing(t, shard.outputs.value, shard.callId, finalOnly, policy);
    }
  }

  lemma {:induction false} OutputsFailNothing(t: Table, outputs: seq<Output>, callId: Option<CallId>, finalOnly: bool,
                                              policy: Policy)
    ensures JobFailed in AfterOutputs(t, outputs, callId, finalOnly, policy).faults <==> JobFailed in t.faults
  {
    if outputs != [] {
      var init, last := outputs[..|outputs| - 1], outputs[|outputs| - 1];
      OutputsFailNothing(t, init, callId, finalOnly, policy);
      RowsFailNothing(AfterOutputs(t, init, callId, finalOnly, policy), OutputRows(last, callId), policy.factor);
    }
  }

  lemma {:induction false} RowsFailNothing(t: Table, os: seq<Observation>, factor: nat)
    ensures JobFailed in MergeAll(t, os, factor).faults <==> JobFailed in t.faults
  {
    if os != [] {
      RowsFailNothing(t, os[..|os| - 1], factor);
    }
  }

  /** A run is without a fault exactly if all jobs were accepted and no row was a reason for one. */
  lemma {:induction false} FaultlessExactly(history: seq<Shard>, first: seq<Job>, plans: seq<Plan>, policy: Policy,
                                            environment: (nat, nat) -> Reply)
    requires policy.factor >= 1 && Course(history, first, plans, policy, environment)
    ensures TableOf(history, plans, policy).faults == [] <==>
      AllClean(Observations(history), policy.factor) && forall s :: s in history ==> s.outputs.Some?
  {
    TimingsRecorded(history, first, plans, policy, environment);
    JobsFailed(history, first, plans, policy, environment);
  }

  lemma {:induction false} JobsFailed(history: seq<Shard>, first: seq<Job>, plans: seq<Plan>, policy: Policy,
                                      environment: (nat, nat) -> Reply)
    requires policy.factor >= 1 && Course(history, first, plans, policy, environment)
    ensures JobFailed in TableOf(history, plans, policy).faults <==> exists s :: s in history && s.outputs.None?
    decreases |plans|
  {
    if plans == [] {
      JobFailures(EMPTY_TABLE, history, false, policy);
    } else {
      var n := |plans| - 1;
      var cut := Cut(history, plans[n].jobs);
      var before := TableOf(history[..cut], plans[..n], policy);
      JobsFailed(history[..cut], first, plans[..n], policy, environment);
      JobFailures(before.(states := plans[n].states), history[cut..], true, policy);
      InHistory(history, cut);
    }
  }

  lemma InHistory(history: seq<Shard>, cut: nat)
    requires cut <= |history|
    ensures forall s :: s in history <==> s in history[..cut] || s in history[cut..]
  {
    CutJoin(history, cut);
  }

  // ------------------------------------------------------ workers that serve

  /** One report: each of the configurations measured once, with a positive timing. */
  ghost predicate Measures(output: Output, ids: set<Id>) {
    && output.Measurements? && RowIds(output.rows) == ids
    && (forall i, j :: 0 <= i < j < |output.rows| ==> output.rows[i].id != output.rows[j].id)
    && forall r :: r in output.rows ==> r.status.Measured? && r.runtime.Some? && r.runtime.value > 0.0
  }

  /** A reply with such reports from at least so many GPUs, all different and none of them excluded. */
  ghost predicate Serves(job: Job, reply: Reply, least: nat) {
    && reply.JobReport? && |reply.outputs| >= least && DifferentGpus(reply.outputs)
    && forall o :: o in reply.outputs ==>
         o.gpu != "" && o.gpu !in job.excluded && Measures(o, Ids(job.chunk)) && |o.rows| == |job.chunk|
  }

  ghost predicate DifferentGpus(outputs: seq<Output>) {
    forall i, j :: 0 <= i < j < |outputs| ==> outputs[i].gpu != outputs[j].gpu
  }

  ghost predicate JobsServed(jobs: seq<Job>, wave: nat, environment: (nat, nat) -> Reply, least: nat) {
    forall i: nat :: i < |jobs| ==> Serves(jobs[i], environment(wave, i), least)
  }

  /** Every job of a run is answered so. */
  ghost predicate AllServed(first: seq<Job>, plans: seq<Plan>, environment: (nat, nat) -> Reply, least: nat) {
    && JobsServed(first, 0, environment, least)
    && forall k: nat :: k < |plans| ==> JobsServed(plans[k].jobs, Reached(first, plans[..k]), environment, least)
  }

  function GpusOf(t: Table, id: Id): set<Uuid> {
    if id in t.states then Gpus(t.states[id].replicas) else {}
  }

  function Held(t: Table, id: Id): nat {
    if id in t.states then |t.states[id].replicas| else 0
  }

  /** At least n replicas more than before, or enough. */
  predicate Gained(before: nat, after: nat, n: nat, factor: nat) {
    after >= before && (after >= factor || after >= before + n)
  }

  ghost predicate Alive(t: Table) {
    exists id :: id in t.order && id in t.states && t.states[id].status.Measured?
  }

  /** Nothing has gone wrong, and unless there is nothing at all, something is measured. */
  ghost predicate Smooth(t: Table) {
    && t.faults == [] && (t.states == map[] || Alive(t))
    && forall id :: id in t.states ==>
      t.states[id].replicas != [] && (t.states[id].status.Measured? || t.states[id].status.GloballyPruned?)
  }

  /** These configurations gained n replicas, on these GPUs; the others are as they were, and nothing revives. */
  ghost predicate Advances(t: Table, t': Table, ids: set<Id>, gpus: set<Uuid>, n: nat, factor: nat) {
    && Smooth(t') && t'.states.Keys == t.states.Keys + ids
    && (forall id :: id in t.states && t'.states[id].status.Measured? ==> t.states[id].status.Measured?)
    && (forall id :: id in ids ==>
          Gained(Held(t, id), Held(t', id), n, factor) && GpusOf(t', id) <= GpusOf(t, id) + gpus)
    && forall id :: id !in ids ==> Held(t', id) == Held(t, id) && GpusOf(t', id) == GpusOf(t, id)
  }

  lemma AdvancesTwice(t: Table, t': Table, t'': Table, ids: set<Id>, g: set<Uuid>, h: set<Uuid>, m: nat, n: nat,
                      factor: nat)
    requires Advances(t, t', ids, g, m, factor) && Advances(t', t'', ids, h, n, factor)
    ensures Advances(t, t'', ids, g + h, m + n, factor)
  {
  }

  lemma ServedRow(t: Table, o: Observation, factor: nat)
    requires factor >= 1 && Smooth(t) && Timing(o, o.row.id) && o.gpu !in GpusOf(t, o.row.id)
    ensures Advances(t, MergeOne(t, o, factor), {o.row.id}, {o.gpu}, 1, factor)
  {
    MergedRow(t, o, factor);
    MergedAlive(t, o, factor);
  }

  lemma MergedRow(t: Table, o: Observation, factor: nat)
    requires factor >= 1 && Smooth(t) && Timing(o, o.row.id) && o.gpu !in GpusOf(t, o.row.id)
    ensures var t', id := MergeOne(t, o, factor), o.row.id;
      && t'.faults == [] && t'.states == t.states[id := t'.states[id]] && t'.states[id].replicas != []
      && t'.states[id].status == (if id in t.states then t.states[id].status else Measured)
      && Gained(Held(t, id), Held(t', id), 1, factor) && GpusOf(t', id) <= GpusOf(t, id) + {o.gpu}
  {
    var id, t' := o.row.id, MergeOne(t, o, factor);
    var r := Replica(o.gpu, o.row.runtime.value, o.callId);
    var s := if id in t.states then t.states[id].replicas else [];
    assert t'.states[id].replicas == s || t'.states[id].replicas == s + [r];
    assert Gpus(s + [r]) <= Gpus(s) + {o.gpu};
  }

  lemma MergedAlive(t: Table, o: Observation, factor: nat)
    requires Smooth(t) && Timing(o, o.row.id)
    ensures Alive(MergeOne(t, o, factor))
  {
    var id, t' := o.row.id, MergeOne(t, o, factor);
    if id !in t.states {
      assert id in t'.order && t'.states[id].status.Measured?;
    } else {
      var m :| m in t.order && m in t.states && t.states[m].status.Measured?;
      assert m in t'.order && t'.states[m].status.Measured?;
    }
  }

  function IdsOf(os: seq<Observation>): set<Id> {
    set o | o in os :: o.row.id
  }


  /** The rows of one report: one positive timing from one GPU for each of these configurations. */
  ghost predicate OneReport(os: seq<Observation>, ids: set<Id>, gpu: Uuid) {
    && IdsOf(os) == ids
    && (forall i, j :: 0 <= i < j < |os| ==> os[i].row.id != os[j].row.id)
    && forall o :: o in os ==> Timing(o, o.row.id) && o.gpu == gpu
  }

  lemma OneReportInit(os: seq<Observation>, ids: set<Id>, gpu: Uuid)
    requires os != [] && OneReport(os, ids, gpu)
    ensures var init, last := os[..|os| - 1], os[|os| - 1];
      && OneReport(init, ids - {last.row.id}, gpu) && last.row.id in ids
      && Timing(last, last.row.id) && last.gpu == gpu
  {
    var init, last := os[..|os| - 1], os[|os| - 1];
    assert os == init + [last] && last in os;
    forall id ensures id in IdsOf(init) <==> id in ids && id != last.row.id {
      if id in IdsOf(init) {
        var o :| o in init && o.row.id == id;
        assert o in os;
      }
      if id in ids && id != last.row.id {
        var o :| o in os && o.row.id == id;
        assert o in init;
      }
    }
  }

  lemma {:induction false} ServedRows(t: Table, os: seq<Observation>, ids: set<Id>, gpu: Uuid, factor: nat)
    requires factor >= 1 && Smooth(t) && OneReport(os, ids, gpu)
    requires forall id :: id in ids ==> gpu !in GpusOf(t, id)
    ensures Advances(t, MergeAll(t, os, factor), ids, {gpu}, 1, factor)
  {
    if os != [] {
      var init, last := os[..|os| - 1], os[|os| - 1];
      var middle, id := MergeAll(t, init, factor), last.row.id;
      OneReportInit(os, ids, gpu);
      ServedRows(t, init, ids - {id}, gpu, factor);
      ServedRow(middle, last, factor);
      AdvancesMore(t, middle, MergeOne(middle, last, factor), ids - {id}, id, gpu, factor);
      assert ids - {id} + {id} == ids;
    }
  }

  lemma AdvancesMore(t: Table, t': Table, t'': Table, ids: set<Id>, id: Id, gpu: Uuid, factor: nat)
    requires Advances(t, t', ids, {gpu}, 1, factor) && Advances(t', t'', {id}, {gpu}, 1, factor) && id !in ids
    ensures Advances(t, t'', ids + {id}, {gpu}, 1, factor)
  {
  }

  lemma ReduceAlive(t: Table, pruning: Option<Pruning>)
    requires Alive(t) && ValidRule(pruning)
    ensures Alive(ReduceTable(t, pruning))
  {
    if Timed(t.states) && forall id :: id in t.order ==> id in t.states {
      LeastMeanIsLeast(t.order, t.states);
      var after, best := ReduceTable(t, pruning), LeastMean(t.order, t.states).value;
      var id :| id in t.order && t.states[id].status.Measured? && Mean(t.states[id].replicas) == best;
      ReduceKeepsBest(t.order, t.states, pruning, id);
      assert id in after.order && after.states[id] == ReduceState(t.states[id], best, pruning);
    }
  }

  /** Reducing keeps replicas, and only prunes. */
  lemma ReduceKeeps(t: Table, pruning: Option<Pruning>, id: Id)
    requires id in t.states
    ensures var after := ReduceTable(t, pruning);
      && after.states.Keys == t.states.Keys && after.states[id].replicas == t.states[id].replicas
      && (after.states[id].status == t.states[id].status ||
          (t.states[id].status.Measured? && after.states[id].status.GloballyPruned?))
  {
  }

  /** The same replicas, and no more measured configurations. */
  ghost predicate Keeps(before: State, after: State) {
    && after.replicas == before.replicas
    && (after.status == before.status || (before.status.Measured? && after.status.GloballyPruned?))
  }

  lemma KeepsAdvances(t: Table, t': Table, ids: set<Id>, factor: nat)
    requires Smooth(t) && ids <= t.states.Keys && t'.states.Keys == t.states.Keys && t'.faults == []
    requires t.states == map[] || Alive(t')
    requires forall id :: id in t.states ==> Keeps(t.states[id], t'.states[id])
    ensures Advances(t, t', ids, {}, 0, factor)
  {
  }

  lemma ServedReduce(t: Table, ids: set<Id>, pruning: Option<Pruning>, factor: nat)
    requires Smooth(t) && ids <= t.states.Keys && ValidRule(pruning)
    ensures Advances(t, ReduceTable(t, pruning), ids, {}, 0, factor)
  {
    var after := ReduceTable(t, pruning);
    if t.states != map[] {
      ReduceAlive(t, pruning);
    }
    forall id | id in t.states ensures Keeps(t.states[id], after.states[id]) {
      ReduceKeeps(t, pruning, id);
    }
    assert after.states.Keys == t.states.Keys;
    KeepsAdvances(t, after, ids, factor);
  }

  lemma OutputReport(output: Output, callId: Option<CallId>, ids: set<Id>)
    requires Measures(output, ids)
    ensures OneReport(OutputRows(output, callId), ids, output.gpu)
  {
    var os := OutputRows(output, callId);
    forall o | o in os ensures Timing(o, o.row.id) && o.gpu == output.gpu && o.row.id in ids {
      var i :| 0 <= i < |os| && os[i] == o;
      assert output.rows[i] in output.rows && o.row.id in RowIds(output.rows);
    }
    forall id | id in ids ensures id in IdsOf(os) {
      var i :| 0 <= i < |output.rows| && output.rows[i].id == id;
      assert os[i] in os;
    }
  }

  lemma ServedOutput(t: Table, output: Output, callId: Option<CallId>, ids: set<Id>, finalOnly: bool, policy: Policy)
    requires policy.Valid() && Smooth(t) && Measures(output, ids)
    requires forall id :: id in ids ==> output.gpu !in GpusOf(t, id)
    ensures Advances(t, AfterOutput(t, output, callId, finalOnly, policy), ids, {output.gpu}, 1, policy.factor)
  {
    var os := OutputRows(output, callId);
    OutputReport(output, callId, ids);
    ServedRows(t, os, ids, output.gpu, policy.factor);
    if finalOnly {
      var merged := MergeAll(t, os, policy.factor);
      ServedReduce(merged, ids, policy.pruning, policy.factor);
      AdvancesTwice(t, merged, ReduceTable(merged, policy.pruning), ids, {output.gpu}, {}, 1, 0, policy.factor);
      assert {output.gpu} + {} == {output.gpu};
    }
  }

  function OutputGpus(outputs: seq<Output>): set<Uuid> {
    set o | o in outputs :: o.gpu
  }

  lemma {:induction false} ServedOutputs(t: Table, outputs: seq<Output>, callId: Option<CallId>, ids: set<Id>,
                                         finalOnly: bool, policy: Policy)
    requires policy.Valid() && Smooth(t) && outputs != [] && DifferentGpus(outputs)
    requires forall o :: o in outputs ==> Measures(o, ids) && forall id :: id in ids ==> o.gpu !in GpusOf(t, id)
    ensures Advances(t, AfterOutputs(t, outputs, callId, finalOnly, policy), ids, OutputGpus(outputs), |outputs|,
                     policy.factor)
  {
    var init, last := outputs[..|outputs| - 1], outputs[|outputs| - 1];
    var middle := AfterOutputs(t, init, callId, finalOnly, policy);
    OutputsInit(outputs);
    if init == [] {
      ServedOutput(t, last, callId, ids, finalOnly, policy);
    } else {
      ServedOutputs(t, init, callId, ids, finalOnly, policy);
      StillNew(t, middle, ids, OutputGpus(init), |init|, policy.factor, last.gpu);
      ServedOutput(middle, last, callId, ids, finalOnly, policy);
      AdvancesTwice(t, middle, AfterOutput(middle, last, callId, finalOnly, policy), ids, OutputGpus(init), {last.gpu},
                    |init|, 1, policy.factor);
    }
  }

  lemma OutputsInit(outputs: seq<Output>)
    requires outputs != [] && DifferentGpus(outputs)
    ensures var init, last := outputs[..|outputs| - 1], outputs[|outputs| - 1];
      && DifferentGpus(init) && OutputGpus(outputs) == OutputGpus(init) + {last.gpu} && last.gpu !in OutputGpus(init)
      && last in outputs && forall o :: o in init ==> o in outputs
  {
    var init, last := outputs[..|outputs| - 1], outputs[|outputs| - 1];
    assert outputs == init + [last];
  }

  lemma StillNew(t: Table, t': Table, ids: set<Id>, gpus: set<Uuid>, n: nat, factor: nat, gpu: Uuid)
    requires Advances(t, t', ids, gpus, n, factor) && gpu !in gpus
    requires forall id :: id in ids ==> gpu !in GpusOf(t, id)
    ensures forall id :: id in ids ==> gpu !in GpusOf(t', id)
  {
  }

  /** A shard of a reply that serves, on GPUs that are new to what it was asked for. */
  ghost predicate ShardServes(shard: Shard, t: Table, least: nat) {
    && shard.outputs.Some? && |shard.outputs.value| >= least && DifferentGpus(shard.outputs.value)
    && forall o :: o in shard.outputs.value ==>
         && Measures(o, Members(shard.requested))
         && forall id :: id in shard.requested ==> o.gpu !in GpusOf(t, id)
  }

  /** What a whole wave does: everything that was asked for gained replicas. */
  ghost predicate WaveAdvances(t: Table, t': Table, ids: seq<Id>, least: nat, factor: nat) {
    && Smooth(t') && t'.states.Keys == t.states.Keys + Members(ids)
    && (forall id :: id in t.states && t'.states[id].status.Measured? ==> t.states[id].status.Measured?)
    && (forall id :: id in ids ==> Gained(Held(t, id), Held(t', id), least, factor))
    && forall id :: id !in ids ==> Held(t', id) == Held(t, id) && GpusOf(t', id) == GpusOf(t, id)
  }

  lemma ServedShard(t: Table, shard: Shard, least: nat, finalOnly: bool, policy: Policy)
    requires policy.Valid() && least >= 1 && Smooth(t) && ShardServes(shard, t, least)
    ensures WaveAdvances(t, AfterShard(t, shard, finalOnly, policy), shard.requested, least, policy.factor)
  {
    ServedOutputs(t, shard.outputs.value, shard.callId, Members(shard.requested), finalOnly, policy);
  }

  /** Everything that the jobs of these shards asked for. */
  function Requested(shards: seq<Shard>): seq<Id> {
    if shards == [] then [] else Requested(shards[..|shards| - 1]) + shards[|shards| - 1].requested
  }

  lemma {:induction false} ServedShards(t: Table, shards: seq<Shard>, least: nat, finalOnly: bool, policy: Policy)
    requires policy.Valid() && least >= 1 && Smooth(t) && Distinct(Requested(shards))
    requires forall s :: s in shards ==> ShardServes(s, t, least)
    ensures WaveAdvances(t, AfterShards(t, shards, finalOnly, policy), Requested(shards), least, policy.factor)
  {
    if shards != [] {
      var init, last := shards[..|shards| - 1], shards[|shards| - 1];
      var middle := AfterShards(t, init, finalOnly, policy);
      DistinctParts(Requested(init), last.requested);
      assert last in shards;
      ServedShards(t, init, least, finalOnly, policy);
      StillServes(t, middle, last, Requested(init), least);
      ServedShard(middle, last, least, finalOnly, policy);
      WaveContinues(t, middle, AfterShard(middle, last, finalOnly, policy), Requested(init), last.requested, least,
                    policy.factor);
    }
  }

  lemma DistinctParts(a: seq<Id>, b: seq<Id>)
    requires Distinct(a + b)
    ensures Distinct(a) && Distinct(b) && forall x :: x in a ==> x !in b
  {
    var both := a + b;
    assert forall i :: 0 <= i < |a| ==> both[i] == a[i];
    assert forall i :: 0 <= i < |b| ==> both[|a| + i] == b[i];
  }

  /** Nothing that this shard asked for has changed. */
  lemma StillServes(t: Table, t': Table, shard: Shard, ids: seq<Id>, least: nat)
    requires ShardServes(shard, t, least) && forall id :: id in ids ==> id !in shard.requested
    requires forall id :: id !in ids ==> GpusOf(t', id) == GpusOf(t, id)
    ensures ShardServes(shard, t', least)
  {
  }

  lemma WaveContinues(t: Table, t': Table, t'': Table, a: seq<Id>, b: seq<Id>, least: nat, factor: nat)
    requires WaveAdvances(t, t', a, least, factor) && WaveAdvances(t', t'', b, least, factor)
    requires forall x :: x in a ==> x !in b
    ensures WaveAdvances(t, t'', a + b, least, factor)
  {
    forall id ensures id in a + b <==> id in a || id in b {
      InConcat(a, b, id);
    }
  }

  lemma {:induction false} RequestedConcat(a: seq<Shard>, b: seq<Shard>)
    ensures Requested(a + b) == Requested(a) + Requested(b)
  {
    if b == [] {
      ConcatEmpty(a);
      ConcatEmpty(Requested(a));
    } else {
      var init, last := b[..|b| - 1], b[|b| - 1];
      RequestedConcat(a, init);
      TakeInit(a, b);
      ConcatAssociative(Requested(a), Requested(init), last.requested);
    }
  }

  lemma RequestedAt(b: seq<Shard>, k: nat)
    requires k < |b|
    ensures multiset(Requested(b)) == multiset(Requested(b[..k] + b[k + 1..])) + multiset(b[k].requested)
  {
    SplitOut(b, k);
    RequestedSplit(b[..k], b[k], b[k + 1..]);
    RequestedConcat(b[..k], b[k + 1..]);
    Rotated(Requested(b[..k]), b[k].requested, Requested(b[k + 1..]));
  }

  lemma SplitOut(b: seq<Shard>, k: nat)
    requires k < |b|
    ensures b == b[..k] + ([b[k]] + b[k + 1..])
  {
  }

  lemma RequestedSplit(before: seq<Shard>, x: Shard, after: seq<Shard>)
    ensures Requested(before + ([x] + after)) == Requested(before) + (x.requested + Requested(after))
  {
    RequestedConcat(before, [x] + after);
    RequestedConcat([x], after);
    RequestedOne(x);
  }

  lemma RequestedOne(shard: Shard)
    ensures Requested([shard]) == shard.requested
  {
    assert [shard][..0] == [] && Requested([]) + shard.requested == shard.requested;
  }

  lemma Rotated(a: seq<Id>, b: seq<Id>, c: seq<Id>)
    ensures multiset(a + (b + c)) == multiset(a + c) + multiset(b)
  {
  }

  lemma WithoutOne(a: seq<Shard>, b: seq<Shard>, k: nat)
    requires a != [] && multiset(a) == multiset(b) && k < |b| && b[k] == a[|a| - 1]
    ensures multiset(a[..|a| - 1]) == multiset(b[..k] + b[k + 1..])
  {
    CutOut(a, |a| - 1);
    CutOut(b, k);
    assert a[..|a| - 1] + a[|a|..] == a[..|a| - 1];
  }

  lemma CutOut(b: seq<Shard>, k: nat)
    requires k < |b|
    ensures multiset(b[..k] + b[k + 1..]) == multiset(b) - multiset{b[k]}
  {
    assert b == b[..k] + [b[k]] + b[k + 1..];
  }

  /** Whatever the order of the replies, they answer the same requests. */
  lemma {:induction false} RequestedPermuted(a: seq<Shard>, b: seq<Shard>)
    requires multiset(a) == multiset(b)
    ensures multiset(Requested(a)) == multiset(Requested(b))
  {
    if a == [] {
      assert |multiset(b)| == 0;
    } else {
      var n := |a| - 1;
      assert a[n] in multiset(b);
      var k :| 0 <= k < |b| && b[k] == a[n];
      WithoutOne(a, b, k);
      RequestedPermuted(a[..n], b[..k] + b[k + 1..]);
      RequestedAt(b, k);
    }
  }

  lemma {:induction false} RequestedOfReplies(jobs: seq<Job>, wave: nat, environment: (nat, nat) -> Reply)
    ensures Requested(Replies(jobs, wave, environment)) == JobIds(jobs)
  {
    if jobs != [] {
      var n, replies := |jobs| - 1, Replies(jobs, wave, environment);
      RequestedOfReplies(jobs[..n], wave, environment);
      assert replies[..n] == Replies(jobs[..n], wave, environment);
    }
  }

  /** A reply that serves its job is accepted. */
  lemma ServesShard(job: Job, reply: Reply, t: Table, least: nat)
    requires least >= 1 && Serves(job, reply, least)
    requires forall v :: v in job.chunk ==> GpusOf(t, v.id) <= job.excluded
    ensures ShardServes(Dispatch(job, reply), t, least)
  {
    var ids := VariantIds(job.chunk);
    assert Members(ids) == Ids(job.chunk) by {
      forall v | v in job.chunk ensures v.id in ids {
        var i :| 0 <= i < |job.chunk| && job.chunk[i] == v;
        assert ids[i] == v.id;
      }
      forall id | id in ids ensures id in Ids(job.chunk) {
        var i :| 0 <= i < |ids| && ids[i] == id;
        assert job.chunk[i] in job.chunk;
      }
    }
    forall o | o in reply.outputs ensures Acceptable(o, job) {
    }
    forall id | id in ids ensures GpusOf(t, id) <= job.excluded {
      assert id in Ids(job.chunk);
    }
  }

  /** A wave whose jobs are all served, whatever the order of the replies. */
  lemma ServedJobs(t: Table, jobs: seq<Job>, wave: nat, done: seq<Shard>, environment: (nat, nat) -> Reply, least: nat,
                   finalOnly: bool, policy: Policy)
    requires policy.Valid() && least >= 1 && Smooth(t) && Distinct(JobIds(jobs))
    requires JobsServed(jobs, wave, environment, least)
    requires multiset(done) == multiset(Replies(jobs, wave, environment))
    requires forall j, v :: j in jobs && v in j.chunk ==> GpusOf(t, v.id) <= j.excluded
    ensures WaveAdvances(t, AfterShards(t, done, finalOnly, policy), Requested(done), least, policy.factor)
    ensures forall id :: id in Requested(done) <==> id in JobIds(jobs)
  {
    var replies := Replies(jobs, wave, environment);
    RequestedPermuted(done, replies);
    RequestedOfReplies(jobs, wave, environment);
    PermutationDistinct(JobIds(jobs), Requested(done));
    forall s | s in done ensures ShardServes(s, t, least) {
      assert s in multiset(done) && s in multiset(replies);
      var i :| 0 <= i < |replies| && replies[i] == s;
      assert jobs[i] in jobs;
      ServesShard(jobs[i], environment(wave, i), t, least);
    }
    ServedShards(t, done, least, finalOnly, policy);
    forall id ensures id in Requested(done) <==> id in JobIds(jobs) {
      assert id in multiset(Requested(done)) <==> id in multiset(JobIds(jobs));
    }
  }

  /** What is still pending holds a number of timings for the first wave and for every retry. */
  ghost predicate KeepsUp(t: Table, waves: nat, least: nat, factor: nat) {
    Smooth(t) && forall id :: id in t.states && IsPending(t.states[id], factor) ==> Held(t, id) >= least * (waves + 1)
  }

  lemma ServedStart(history: seq<Shard>, first: seq<Job>, variants: seq<Variant>, policy: Policy,
                    environment: (nat, nat) -> Reply, least: nat)
    requires policy.Valid() && least >= 1 && Distinct(VariantIds(variants))
    requires FirstJobs(first, variants, policy.jobSize) && JobsServed(first, 0, environment, least)
    requires multiset(history) == multiset(Replies(first, 0, environment))
    ensures var t := TableOf(history, [], policy);
      KeepsUp(t, 0, least, policy.factor) && t.states.Keys == Members(VariantIds(variants))
  {
    JobIdsOfParts(JobChunks(first), first);
    ServedJobs(EMPTY_TABLE, first, 0, history, environment, least, false, policy);
    var t := AfterShards(EMPTY_TABLE, history, false, policy);
    ServedReduce(t, t.states.Keys, policy.pruning, policy.factor);
    assert t.states.Keys == Members(VariantIds(variants));
  }

  lemma ServedPlan(before: Table, p: Plan, k: nat, start: nat, done: seq<Shard>, policy: Policy,
                   environment: (nat, nat) -> Reply, least: nat)
    requires policy.Valid() && least >= 1 && KeepsUp(before, k, least, policy.factor)
    requires Planned(p, before, policy) && PlanOk(p, k, policy) && JobsServed(p.jobs, start, environment, least)
    requires multiset(done) == multiset(Replies(p.jobs, start, environment))
    ensures var t := AfterShards(before.(states := p.states), done, true, policy);
      KeepsUp(t, k + 1, least, policy.factor) && t.states.Keys == before.states.Keys
  {
    var t0 := before.(states := p.states);
    var t := AfterShards(t0, done, true, policy);
    AttemptedSmooth(before, p.pending);
    PermutationDistinct(p.pending, JobIds(p.jobs));
    ServedJobs(t0, p.jobs, start, done, environment, least, true, policy);
    SameMembers(JobIds(p.jobs), p.pending);
    PendingGains(before, t0, t, Requested(done), p.pending, k, least, policy.factor);
  }

  lemma SameMembers(a: seq<Id>, b: seq<Id>)
    requires multiset(a) == multiset(b)
    ensures forall id :: id in a <==> id in b
  {
    forall id ensures id in a <==> id in b {
      assert id in multiset(a) <==> id in multiset(b);
    }
  }

  /** What is pending after a wave was pending before it, and gained replicas. */
  lemma PendingGains(before: Table, t0: Table, t: Table, ids: seq<Id>, pending: seq<Id>, k: nat, least: nat,
                     factor: nat)
    requires KeepsUp(before, k, least, factor) && WaveAdvances(t0, t, ids, least, factor)
    requires t0.states == Attempted(before.states, pending)
    requires forall id :: id in pending <==> id in before.states && IsPending(before.states[id], factor)
    requires forall id :: id in ids <==> id in pending
    ensures KeepsUp(t, k + 1, least, factor) && t.states.Keys == before.states.Keys
  {
    forall id | id in t.states && IsPending(t.states[id], factor)
      ensures Held(t, id) >= least * (k + 2)
    {
      assert id in t0.states && Held(t0, id) == Held(before, id);
      assert IsPending(before.states[id], factor) && id in ids;
      assert least * (k + 2) == least * (k + 1) + least;
    }
  }

  lemma AttemptedSmooth(t: Table, ids: seq<Id>)
    requires Smooth(t)
    ensures Smooth(t.(states := Attempted(t.states, ids)))
    ensures forall id :: Held(t.(states := Attempted(t.states, ids)), id) == Held(t, id)
  {
    if t.states != map[] {
      var id :| id in t.order && id in t.states && t.states[id].status.Measured?;
      assert Attempted(t.states, ids)[id].status.Measured?;
    } else {
      assert Attempted(t.states, ids) == map[];
    }
  }

  /** A course of a run whose jobs are all served. */
  ghost predicate ServedCourse(history: seq<Shard>, first: seq<Job>, plans: seq<Plan>, variants: seq<Variant>,
                               policy: Policy, environment: (nat, nat) -> Reply, least: nat)
  {
    && policy.Valid() && least >= 1 && Distinct(VariantIds(variants))
    && FirstJobs(first, variants, policy.jobSize) && PlansOk(plans, policy)
    && Course(history, first, plans, policy, environment) && AllServed(first, plans, environment, least)
  }

  /** Its last retry wave, which starts there. */
  ghost predicate ServedWave(history: seq<Shard>, start: nat, plans: seq<Plan>, policy: Policy,
                             environment: (nat, nat) -> Reply, least: nat)
    requires plans != []
  {
    && policy.Valid() && least >= 1 && PlansOk(plans, policy) && start <= |history|
    && JobsServed(plans[|plans| - 1].jobs, start, environment, least)
    && multiset(history[start..]) == multiset(Replies(plans[|plans| - 1].jobs, start, environment))
    && Planned(plans[|plans| - 1], TableOf(history[..start], plans[..|plans| - 1], policy), policy)
  }

  /** The variables of a run keep up, for all variants. */
  ghost predicate Keeping(history: seq<Shard>, plans: seq<Plan>, variants: seq<Variant>, policy: Policy, least: nat) {
    var t := TableOf(history, plans, policy);
    KeepsUp(t, |plans|, least, policy.factor) && t.states.Keys == Members(VariantIds(variants))
  }

  /** A run whose workers serve has no fault, something measured, and ever more timings. */
  lemma {:induction false} ServedRun(history: seq<Shard>, first: seq<Job>, plans: seq<Plan>, variants: seq<Variant>,
                                     policy: Policy, environment: (nat, nat) -> Reply, least: nat)
    requires ServedCourse(history, first, plans, variants, policy, environment, least)
    ensures Keeping(history, plans, variants, policy, least)
    decreases |plans|
  {
    if plans == [] {
      ServedStart(history, first, variants, policy, environment, least);
    } else {
      var start := LastServed(history, first, plans, variants, policy, environment, least);
      ServedRun(history[..start], first, plans[..|plans| - 1], variants, policy, environment, least);
      ServedLast(history, start, plans, variants, policy, environment, least);
    }
  }

  /** What there is before the last retry wave, and that its jobs are served. */
  lemma LastServed(history: seq<Shard>, first: seq<Job>, plans: seq<Plan>, variants: seq<Variant>, policy: Policy,
                   environment: (nat, nat) -> Reply, least: nat)
    returns (start: nat)
    requires plans != [] && ServedCourse(history, first, plans, variants, policy, environment, least)
    ensures ServedWave(history, start, plans, policy, environment, least)
    ensures ServedCourse(history[..start], first, plans[..|plans| - 1], variants, policy, environment, least)
  {
    start := CourseLast(history, first, plans, policy, environment);
    ServedBefore(first, plans, environment, least);
  }

  /** The last retry wave of a run. */
  lemma ServedLast(history: seq<Shard>, start: nat, plans: seq<Plan>, variants: seq<Variant>, policy: Policy,
                   environment: (nat, nat) -> Reply, least: nat)
    requires plans != [] && ServedWave(history, start, plans, policy, environment, least)
    requires Keeping(history[..start], plans[..|plans| - 1], variants, policy, least)
    ensures Keeping(history, plans, variants, policy, least)
  {
    var n := |plans| - 1;
    assert |multiset(history[start..])| == |multiset(Replies(plans[n].jobs, start, environment))|;
    assert start == Cut(history, plans[n].jobs);
    ServedPlan(TableOf(history[..start], plans[..n], policy), plans[n], n, start, history[start..], policy,
               environment, least);
  }

  lemma ServedBefore(first: seq<Job>, plans: seq<Plan>, environment: (nat, nat) -> Reply, least: nat)
    requires plans != [] && AllServed(first, plans, environment, least)
    ensures AllServed(first, plans[..|plans| - 1], environment, least)
    ensures JobsServed(plans[|plans| - 1].jobs, Reached(first, plans[..|plans| - 1]), environment, least)
  {
    var n := |plans| - 1;
    forall k: nat | k < n ensures JobsServed(plans[..n][k].jobs, Reached(first, plans[..n][..k]), environment, least) {
      assert plans[..n][..k] == plans[..k];
    }
  }

  lemma SomethingMeasured(t: Table, variants: seq<Variant>)
    requires Smooth(t) && variants != [] && t.states.Keys == Members(VariantIds(variants))
    ensures exists id :: id in t.states && t.states[id].status.Measured?
  {
    assert VariantIds(variants)[0] in t.states.Keys;
  }

  datatype Between = Waves | Elsewhere

  class Tuning {
    const policy: Policy
    const variants: seq<Variant>
    const environment: (nat, nat) -> Reply

    var order: seq<Id>
    var states: map<Id, State>
    var history: seq<Shard>
    var faults: seq<Fault>
    ghost var seen: seq<Observation>

    constructor (policy: Policy, variants: seq<Variant>, environment: (nat, nat) -> Reply)
      requires policy.Valid()
      ensures this.policy == policy && this.variants == variants && this.environment == environment
      ensures Valid() && Now() == EMPTY_TABLE && history == [] && seen == []
    {
      this.policy, this.variants, this.environment := policy, variants, environment;
      order, states, history, faults, seen := [], map[], [], [], [];
    }

    ghost predicate Valid()
      reads this
    {
      && policy.Valid()
      && Consistent(order, states, history, faults, seen, policy.factor)
      && AllBacked(faults, seen, history)
    }

    /** Every row of the history was merged, and every fault has its evidence in it. */
    ghost predicate Evidence()
      reads this
    {
      seen == Observations(history) && AllBacked(faults, seen, history)
    }

    ghost function Now(): Table
      reads this
    {
      Table(order, states, faults)
    }

    /** Sets the mean of every measured configuration. */
    method Average()
      requires Indexed(order, states) && Timed(states)
      modifies this`states
      ensures states == map id | id in old(states) :: Averaging(old(states)[id])
    {
      var i := 0;
      ghost var before, done := states, {};
      while i < |order|
        invariant 0 <= i <= |order|
        invariant states.Keys == before.Keys
        invariant forall k :: 0 <= k < |order| ==> (order[k] in done <==> k < i)
        invariant forall id :: id in states ==> states[id] == if id in done then Averaging(before[id]) else before[id]
      {
        var s := states[order[i]];
        done := done + {order[i]};
        if s.status.Measured? {
          states := states[s.id := s.(runtime := Some(Mean(s.replicas)))];
        }
        i := i + 1;
      }
    }

    method Prune(limit: Option<real>)
      requires Indexed(order, states)
      requires forall id :: id in states && states[id].status.Measured? ==> states[id].runtime.Some?
      modifies this`states
      ensures states == map id | id in old(states) :: Pruned(old(states)[id], limit)
    {
      var i := 0;
      ghost var before, done := states, {};
      while i < |order|
        invariant 0 <= i <= |order|
        invariant states.Keys == before.Keys
        invariant forall k :: 0 <= k < |order| ==> (order[k] in done <==> k < i)
        invariant forall id :: id in states ==>
          states[id] == if id in done then Pruned(before[id], limit) else before[id]
      {
        var s := states[order[i]];
        done := done + {order[i]};
        if s.status.Measured? && !Within(s.runtime.value, limit) {
          states := states[s.id := s.(status := GloballyPruned)];
        }
        i := i + 1;
      }
    }

    method Reduce()
      requires Valid() && Timed(states)
      modifies this`states
      ensures Valid()
      ensures states == Reduced(order, old(states), policy.pruning)
      ensures Averaged(states) && Evolved(old(states), states)
    {
      ReducedSafe(order, states, history, faults, seen, policy);
      var best := LeastMean(order, states);
      Average();
      ReducedInSteps(order, old(states), policy.pruning, states);
      if best.Some? {
        Prune(Limit(best.value, policy.pruning));
      }
    }

    /** Merges one reported row; an initial wave creates states, a retry wave finds them. */
    method MergeInto(o: Observation)
      modifies this`order, this`states, this`faults, this`seen
      ensures Now() == MergeOne(old(Now()), o, policy.factor) && seen == old(seen) + [o]
    {
      var id := o.row.id;
      var (merged, fault) := MergeRow(if id in states then states[id] else Created(o.row), o, policy.factor);
      if id !in states {
        order := order + [id];
      }
      states := states[id := merged];
      if fault.Some? {
        faults := faults + [fault.value];
      }
      seen := seen + [o];
    }

    /** The invariants survive the merge of one row. */
    method Merge(o: Observation, ghost ids: set<Id>)
      requires Valid() && o.row.id in ids
      modifies this`order, this`states, this`faults, this`seen
      ensures Valid() && Now() == MergeOne(old(Now()), o, policy.factor)
      ensures seen == old(seen) + [o]
      ensures o.row.id in states
      ensures Grown(old(faults), old(states), faults, states, ids)
      ensures faults == [] && Timed(old(states)) ==> Timed(states)
      ensures o.row.id in old(states) && Timed(old(states)) ==> Timed(states)
    {
      MergeConsistent(Now(), history, seen, policy.factor, o);
      MergeBacked(Now(), history, seen, policy.factor, o);
      MergeGrown(Now(), history, seen, policy.factor, o, ids);
      MergeInto(o);
    }

    /** Merges the next row of a report; `start` and `seen0` are the variables before its first. */
    method MergeNext(observed: seq<Observation>, k: nat, ghost start: Table, ghost seen0: seq<Observation>,
                     ghost ids: set<Id>)
      requires Valid() && k < |observed| && observed[k].row.id in ids
      requires Now() == MergeAll(start, observed[..k], policy.factor) && seen == seen0 + observed[..k]
      modifies this`order, this`states, this`faults, this`seen
      ensures Valid() && observed[k].row.id in states
      ensures Now() == MergeAll(start, observed[..k + 1], policy.factor) && seen == seen0 + observed[..k + 1]
      ensures Grown(old(faults), old(states), faults, states, ids)
      ensures faults == [] && Timed(old(states)) ==> Timed(states)
      ensures observed[k].row.id in old(states) && Timed(old(states)) ==> Timed(states)
    {
      TakeStep(seen0, observed, k);
      MergeAllStep(start, observed, k, policy.factor);
      Merge(observed[k], ids);
    }

    /** Merges the rows of one accepted report. */
    method MergeRows(rows: seq<Row>, observed: seq<Observation>, finalOnly: bool, ghost ids: set<Id>)
      requires Valid() && |observed| == |rows| && forall k :: 0 <= k < |rows| ==> observed[k].row == rows[k]
      requires if finalOnly then Timed(states) else faults == [] ==> Timed(states)
      requires forall r :: r in rows ==> r.id in ids && (finalOnly ==> r.id in states)
      modifies this`order, this`states, this`faults, this`seen
      ensures Valid() && Now() == MergeAll(old(Now()), observed, policy.factor)
      ensures seen == old(seen) + observed
      ensures Grown(old(faults), old(states), faults, states, ids)
      ensures if finalOnly then Timed(states) else faults == [] ==> Timed(states)
    {
      var k := 0;
      while k < |rows|
        invariant 0 <= k <= |rows|
        invariant Valid() && Now() == MergeAll(old(Now()), observed[..k], policy.factor)
        invariant seen == old(seen) + observed[..k]
        invariant Grown(old(faults), old(states), faults, states, ids)
        invariant if finalOnly then Timed(states) else faults == [] ==> Timed(states)
      {
        label before:
        assert rows[k] in rows;
        MergeNext(observed, k, old(Now()), old(seen), ids);
        GrownTransitive(old(faults), old(states), old@before(faults), old@before(states), faults, states, ids);
        k := k + 1;
      }
      assert observed[..k] == observed;
    }

    /** Merges one accepted report, or skips a GPU that found itself already used; a retry wave reduces. */
    method MergeOutput(output: Output, callId: Option<CallId>, finalOnly: bool, ghost ids: set<Id>)
      requires Valid() && (output.Measurements? ==> RowIds(output.rows) == ids)
      requires Ready(finalOnly, faults, states) && (finalOnly ==> forall id :: id in ids ==> id in states)
      modifies this`order, this`states, this`faults, this`seen
      ensures Valid() && Now() == AfterOutput(old(Now()), output, callId, finalOnly, policy)
      ensures seen == old(seen) + OutputRows(output, callId)
      ensures Grown(old(faults), old(states), faults, states, ids)
      ensures Ready(finalOnly, faults, states)
    {
      if output.Measurements? {
        MergeRows(output.rows, OutputRows(output, callId), finalOnly, ids);
        if finalOnly {
          label merged:
          Reduce();
          GrownTransitive(old(faults), old(states), old@merged(faults), old@merged(states), faults, states, ids);
        }
      }
    }

    method MergeOutputs(outputs: seq<Output>, callId: Option<CallId>, finalOnly: bool, ghost ids: set<Id>)
      requires Valid() && forall o :: o in outputs && o.Measurements? ==> RowIds(o.rows) == ids
      requires Ready(finalOnly, faults, states) && (finalOnly ==> forall id :: id in ids ==> id in states)
      modifies this`order, this`states, this`faults, this`seen
      ensures Valid() && Now() == AfterOutputs(old(Now()), outputs, callId, finalOnly, policy)
      ensures seen == old(seen) + OutputsRows(outputs, callId)
      ensures Grown(old(faults), old(states), faults, states, ids)
      ensures Ready(finalOnly, faults, states)
    {
      var k := 0;
      while k < |outputs|
        invariant 0 <= k <= |outputs|
        invariant Valid() && Now() == AfterOutputs(old(Now()), outputs[..k], callId, finalOnly, policy)
        invariant seen == old(seen) + OutputsRows(outputs[..k], callId)
        invariant Grown(old(faults), old(states), faults, states, ids)
        invariant Ready(finalOnly, faults, states)
      {
        label before:
        assert outputs[k] in outputs;
        MergeOutput(outputs[k], callId, finalOnly, ids);
        GrownTransitive(old(faults), old(states), old@before(faults), old@before(states), faults, states, ids);
        OutputsRowsStep(old(seen), outputs, k, callId);
        AfterOutputsStep(old(Now()), outputs, k, callId, finalOnly, policy);
        k := k + 1;
      }
      assert outputs[..k] == outputs;
    }

    /** Records one completed job and merges whatever it reported. */
    method MergeShard(job: Job, reply: Reply, finalOnly: bool)
      requires Valid() && seen == Observations(history)
      requires Ready(finalOnly, faults, states) && (finalOnly ==> Ids(job.chunk) <= states.Keys)
      modifies this`order, this`states, this`faults, this`seen, this`history
      ensures Valid() && seen == Observations(history)
      ensures Now() == AfterShard(old(Now()), Dispatch(job, reply), finalOnly, policy)
      ensures history == old(history) + [Dispatch(job, reply)]
      ensures Grown(old(faults), old(states), faults, states, Ids(job.chunk))
      ensures Ready(finalOnly, faults, states)
    {
      var shard := Dispatch(job, reply);
      HistoryBacked(faults, seen, history, shard);
      history := history + [shard];
      assert history[..|history| - 1] == old(history);
      if shard.outputs.None? {
        faults := faults + [JobFailed];
      } else {
        DispatchMeans(job, reply);
        MergeOutputs(shard.outputs.value, shard.callId, finalOnly, Ids(job.chunk));
      }
    }

    /**
     The jobs of a wave outside `remaining` are complete; `start` and `history0` are the
     variables before the wave.
     */
    ghost predicate Midway(finalOnly: bool, ids: set<Id>, start: Table, history0: seq<Shard>, done: seq<Shard>)
      reads this
    {
      && Valid() && seen == Observations(history)
      && Ready(finalOnly, faults, states) && (finalOnly ==> ids <= states.Keys)
      && Grown([], start.states, faults, states, ids)
      && history == history0 + done && Now() == AfterShards(start, done, finalOnly, policy)
    }

    /** One more job of a wave completes. */
    method CompleteJob(wave: nat, jobs: seq<Job>, i: nat, finalOnly: bool, ghost ids: set<Id>, ghost start: Table,
                       ghost history0: seq<Shard>, ghost done: seq<Shard>)
      requires Midway(finalOnly, ids, start, history0, done)
      requires i < |jobs| && Ids(jobs[i].chunk) <= ids
      modifies this`order, this`states, this`faults, this`seen, this`history
      ensures Midway(finalOnly, ids, start, history0, done + [Dispatch(jobs[i], environment(wave, i))])
    {
      AfterShardsStep(start, history0, done, Dispatch(jobs[i], environment(wave, i)), finalOnly, policy);
      MergeShard(jobs[i], environment(wave, i), finalOnly);
      GrownTransitive([], start.states, old(faults), old(states), faults, states, ids);
    }

    /** The jobs of a wave complete in an arbitrary order. */
    method CompleteJobs(wave: nat, jobs: seq<Job>, finalOnly: bool, ghost ids: set<Id>, ghost start: Table,
                        ghost history0: seq<Shard>)
      returns (ghost done: seq<Shard>)
      requires Midway(finalOnly, ids, start, history0, []) && forall j :: j in jobs ==> Ids(j.chunk) <= ids
      modifies this`order, this`states, this`faults, this`seen, this`history
      ensures Midway(finalOnly, ids, start, history0, done)
      ensures multiset(done) == multiset(Replies(jobs, wave, environment))
    {
      var remaining := Indices(|jobs|);
      ghost var replies := Replies(jobs, wave, environment);
      done := [];
      AwaitedAll(replies, remaining);
      while remaining != {}
        invariant Midway(finalOnly, ids, start, history0, done)
        invariant forall i :: i in remaining ==> 0 <= i < |jobs|
        invariant multiset(done) + Awaited(replies, remaining) == multiset(replies)
        decreases |remaining|
      {
        var i :| i in remaining;
        assert jobs[i] in jobs;
        AwaitedNext(replies, remaining, i, done);
        CompleteJob(wave, jobs, i, finalOnly, ids, start, history0, done);
        remaining, done := remaining - {i}, done + [replies[i]];
      }
      AwaitedNone(replies);
    }

    /** Runs the jobs of one wave; they complete in an arbitrary order, which the history keeps. */
    method Wave(wave: nat, jobs: seq<Job>, finalOnly: bool, ghost ids: set<Id>)
      returns (ok: bool, ghost done: seq<Shard>)
      requires Valid() && faults == [] && seen == Observations(history)
      requires Ready(finalOnly, faults, states)
      requires forall j :: j in jobs ==> Ids(j.chunk) <= ids
      requires finalOnly ==> ids <= states.Keys
      modifies this`order, this`states, this`faults, this`seen, this`history
      ensures Midway(finalOnly, ids, old(Now()), old(history), done) && (ok <==> faults == [])
      ensures multiset(done) == multiset(Replies(jobs, wave, environment))
    {
      assert Midway(finalOnly, ids, Now(), history, []);
      done := CompleteJobs(wave, jobs, finalOnly, ids, Now(), history);
      ok := faults == [];
    }

    /** Counts an attempt for every pending configuration, unless one has used them all. */
    method CountAttempts(pending: seq<Id>) returns (ok: bool)
      requires Distinct(pending) && forall id :: id in pending ==> id in states
      modifies this`states
      ensures ok ==> states == Attempted(old(states), pending)
      ensures forall id :: id in old(states) ==>
        id in states && states[id].status == old(states)[id].status && states[id].replicas == old(states)[id].replicas
      ensures ok <==> forall id :: id in pending ==> old(states)[id].attempts < policy.maxAttempts
    {
      var i := 0;
      ghost var before, done := states, {};
      while i < |pending|
        invariant 0 <= i <= |pending|
        invariant states.Keys == before.Keys
        invariant forall k :: 0 <= k < |pending| ==> (pending[k] in done <==> k < i)
        invariant forall id :: id in done ==> id in pending && before[id].attempts < policy.maxAttempts
        invariant forall id :: id in states ==>
          states[id] == if id in done then before[id].(attempts := before[id].attempts + 1) else before[id]
      {
        var id := pending[i];
        if states[id].attempts >= policy.maxAttempts {
          return false;
        }
        states := states[id := states[id].(attempts := states[id].attempts + 1)];
        done := done + {id};
        i := i + 1;
      }
      return true;
    }

    /** Starts an attempt for everything that is pending, unless something used up its attempts. */
    method StartAttempts(pending: seq<Id>, ghost plans: seq<Plan>) returns (ok: bool)
      requires Between(pending, plans).Waves? && pending != []
      modifies this`states
      ensures ok ==> Started(pending, plans, old(states)).Waves?
      ensures !ok ==> PlansOk(plans, policy) && |plans| == policy.maxAttempts
      ensures !ok ==> pending[0] in states && IsPending(states[pending[0]], policy.factor)
    {
      PendingDistinct(order, states, policy.factor);
      AttemptedConsistent(order, states, history, faults, seen, policy.factor, pending);
      assert pending[0] in pending;
      ok := CountAttempts(pending);
      if ok {
        assert |plans| < policy.maxAttempts;
        assert Resting();
      }
    }

    /** Between waves of a run in which nothing has gone wrong. */
    ghost predicate Resting()
      reads this
    {
      && Valid() && faults == [] && seen == Observations(history)
      && Averaged(states) && states.Keys == Ids(variants)
    }

    ghost predicate Retrying(pending: seq<Id>, plans: seq<Plan>)
      reads this
    {
      && Resting()
      && pending == PendingIds(order, states, policy.factor)
      && PlansOk(plans, policy)
      && (forall id :: id in pending ==> states[id].attempts == |plans|)
      && forall p, id :: p in plans && id in pending ==> id in p.pending
    }

    /** The retry waves so far ran as planned, and led to these variables. */
    ghost predicate Ran(first: seq<Job>, plans: seq<Plan>, t: Table)
      reads this
    {
      Course(history, first, plans, policy, environment) && t == TableOf(history, plans, policy)
    }

    /** Whether the run is between two retry waves; one value, so that it is passed on as a whole. */
    ghost function Between(pending: seq<Id>, plans: seq<Plan>): Between
      reads this
    {
      if Indexed(order, states) && Retrying(pending, plans) then Waves else Elsewhere
    }

    /** Whether a wave with these jobs is about to start. */
    ghost function About(pending: seq<Id>, jobs: seq<Job>, plans: seq<Plan>, before: map<Id, State>): Between
      reads this
    {
      if && Resting() && Indexed(order, before) && pending == PendingIds(order, before, policy.factor)
         && states == Attempted(before, pending) && (forall id :: id in pending ==> before[id].attempts == |plans|)
         && (forall p, id :: p in plans && id in pending ==> id in p.pending)
         && PlansOk(plans + [Plan(pending, jobs, states)], policy)
         && forall j :: j in jobs ==> Ids(j.chunk) <= states.Keys
      then Waves else Elsewhere
    }

    lemma RetriesStart()
      requires Resting() && forall id :: id in states ==> states[id].attempts == 0
      ensures Between(PendingIds(order, states, policy.factor), []).Waves?
    {
    }

    /** Slices the variants into jobs that exclude no GPU, and measures each variant once. */
    method FirstWave() returns (ok: bool, ghost first: seq<Job>)
      requires Valid() && Now() == EMPTY_TABLE && history == [] && seen == []
      modifies this`order, this`states, this`faults, this`seen, this`history
      ensures Valid() && seen == Observations(history) && (ok <==> faults == [])
      ensures FirstJobs(first, variants, policy.jobSize) &&
        multiset(history) == multiset(Replies(first, 0, environment))
      ensures Now() == AfterShards(EMPTY_TABLE, history, false, policy)
      ensures ok ==> Timed(states) && states.Keys == Ids(variants)
      ensures forall id :: id in states ==> states[id].attempts == 0
    {
      var jobs := SliceVariants();
      ghost var done;
      ok, done := Wave(0, jobs, false, Ids(variants));
      assert history == done;
      first := jobs;
      if ok {
        FirstJobsObserved(jobs, history, states, environment);
        FirstJobsCover(variants, jobs, policy.jobSize, states.Keys);
      }
    }

    method SliceVariants() returns (jobs: seq<Job>)
      requires policy.Valid()
      ensures FirstJobs(jobs, variants, policy.jobSize)
      ensures forall j :: j in jobs ==> Ids(j.chunk) <= Ids(variants)
    {
      var parts := Chunks(variants, policy.jobSize);
      jobs := seq(|parts|, k requires 0 <= k < |parts| => Job(parts[k], {}));
      FirstJobsMade(variants, parts, jobs, policy.jobSize);
      FirstJobsWithin(variants, parts, jobs);
    }

    /** The first wave, and the reduction after it. */
    method Begin() returns (ok: bool, ghost first: seq<Job>)
      requires Valid() && Now() == EMPTY_TABLE && history == [] && seen == []
      modifies this`order, this`states, this`faults, this`seen, this`history
      ensures Evidence() && (ok <==> faults == [])
      ensures FirstJobs(first, variants, policy.jobSize) && Ran(first, [], Now())
      ensures ok ==> Indexed(order, states) && Between(PendingIds(order, states, policy.factor), []).Waves?
    {
      ok, first := FirstWave();
      CourseStarts(history, first, policy, environment);
      if ok {
        Reduce();
        RetriesStart();
      }
    }

    /** The first of the best completed configurations. */
    method Best() returns (winner: Option<State>)
      requires Indexed(order, states) && Averaged(states)
      ensures winner.None? <==> forall id :: id in states ==> !Complete(states[id], policy.factor)
      ensures winner.Some? ==>
        && winner.value.id in states && winner.value == states[winner.value.id] && Complete(winner.value, policy.factor)
        && forall id :: id in states && Complete(states[id], policy.factor) ==>
             winner.value.runtime.value <= states[id].runtime.value
    {
      winner := None;
      var i := 0;
      while i < |order|
        invariant 0 <= i <= |order|
        invariant winner.None? ==> forall k :: 0 <= k < i ==> !Complete(states[order[k]], policy.factor)
        invariant winner.Some? ==>
          && winner.value.id in states && winner.value == states[winner.value.id] &&
             Complete(winner.value, policy.factor)
          && forall k :: 0 <= k < i && Complete(states[order[k]], policy.factor) ==>
               winner.value.runtime.value <= states[order[k]].runtime.value
      {
        var s := states[order[i]];
        if Complete(s, policy.factor) {
          if winner.None? || s.runtime.value < winner.value.runtime.value {
            winner := Some(s);
          }
        }
        i := i + 1;
      }
    }

    /** The report of a run in which nothing is pending any more. */
    method Conclude(byId: map<Id, Variant>) returns (r: Result<Report, Error>)
      requires Resting() && byId == ById(variants)
      requires PendingIds(order, states, policy.factor) == []
      ensures r.Success? ==> Passed(r.value, variants, states, history, policy.factor)
      ensures r.Failure? <==> forall id :: id in states ==> !states[id].status.Measured?
      ensures r.Failure? ==> r.error.NothingCompleted?
    {
      var winner := Best();
      MeasuredAreComplete(order, states, history, seen, policy.factor);
      if winner.None? {
        return Failure(NothingCompleted);
      }
      var w := winner.value;
      WinnerFound(order, states, history, seen, policy.factor, w.id);
      VariantsNamed(variants);
      var report := Report(Lookup(variants, states), w.id, w.runtime.value, byId[w.id]);
      assert Passed(report, variants, states, history, policy.factor);
      return Success(report);
    }

    /** Starts an attempt for every pending configuration and plans the jobs of the wave. */
    method Prepare(pending: seq<Id>, byId: map<Id, Variant>, ghost plans: seq<Plan>)
      returns (jobs: Option<seq<Job>>)
      requires Between(pending, plans).Waves? && pending != [] && byId == ById(variants)
      modifies this`states
      ensures jobs.None? ==> PlansOk(plans, policy) && |plans| == policy.maxAttempts
      ensures jobs.None? ==> pending[0] in states && IsPending(states[pending[0]], policy.factor)
      ensures jobs.Some? ==> About(pending, jobs.value, plans, old(states)).Waves?
      ensures jobs.Some? ==> states == Attempted(old(states), pending)
      ensures Evidence()
    {
      ghost var before := states;
      var started := StartAttempts(pending, plans);
      if !started {
        return None;
      }
      var planned := PlanWave(pending, byId, plans, before);
      return Some(planned);
    }

    /** Whether attempts were started for what is pending. */
    ghost function Started(pending: seq<Id>, plans: seq<Plan>, before: map<Id, State>): Between
      reads this
    {
      if && Resting() && Indexed(order, before) && pending == PendingIds(order, before, policy.factor)
         && states == Attempted(before, pending) && PlansOk(plans, policy) && |plans| < policy.maxAttempts
         && (forall id :: id in pending ==> before[id].attempts == |plans|)
         && forall p, id :: p in plans && id in pending ==> id in p.pending
      then Waves else Elsewhere
    }

    /** Plans the jobs of a wave. */
    method PlanWave(pending: seq<Id>, byId: map<Id, Variant>, ghost plans: seq<Plan>, ghost before: map<Id, State>)
      returns (jobs: seq<Job>)
      requires Started(pending, plans, before).Waves? && pending != [] && byId == ById(variants)
      ensures About(pending, jobs, plans, before).Waves?
    {
      PendingDistinct(order, before, policy.factor);
      VariantsNamed(variants);
      jobs := PlanJobs(pending, states, byId, policy.jobSize);
      WavePlanned(order, before, pending, jobs, plans, policy);
    }

    /** Plans and runs one retry wave over the pending configurations; `done` is how it extends the history. */
    method Retry(pending: seq<Id>, byId: map<Id, Variant>, ghost plans: seq<Plan>)
      returns (failure: Option<Error>, ghost plan: Option<Plan>, ghost done: seq<Shard>)
      requires Between(pending, plans).Waves? && pending != [] && byId == ById(variants)
      modifies this
      ensures plan.Some? ==> PlansOk(plans + [plan.value], policy)
      ensures plan.Some? ==>
        plan.value.pending == pending && plan.value.states == Attempted(old(states), pending)
        && Answered(plan.value, old(order), old(history), done)
      ensures plan.None? ==> failure == Some(PlacementLimit) && history == old(history)
      ensures failure.None? ==>
        Indexed(order, states) && Between(PendingIds(order, states, policy.factor), plans + [plan.value]).Waves?
      ensures Evidence()
      ensures failure.Some? && plan.Some? ==> failure.value.Faults? && failure.value.faults == faults != []
      ensures plan.None? ==> |plans| == policy.maxAttempts
      ensures plan.None? ==> exists id :: id in states && IsPending(states[id], policy.factor)
    {
      var jobs := Prepare(pending, byId, plans);
      if jobs.None? {
        return Some(PlacementLimit), None, [];
      }
      plan := Some(Plan(pending, jobs.value, states));
      failure, done := Launch(pending, jobs.value, plans, old(states));
    }

    /** The wave extended the history by the replies to its jobs, in some order that the variables reflect. */
    ghost predicate Answered(p: Plan, order0: seq<Id>, history0: seq<Shard>, done: seq<Shard>)
      reads this
    {
      && history == history0 + done
      && multiset(done) == multiset(Replies(p.jobs, |history0|, environment))
      && Now() == AfterShards(Table(order0, p.states, []), done, true, policy)
    }

    /** Runs the planned jobs of one retry wave. */
    method Launch(pending: seq<Id>, jobs: seq<Job>, ghost plans: seq<Plan>, ghost before: map<Id, State>)
      returns (failure: Option<Error>, ghost done: seq<Shard>)
      requires About(pending, jobs, plans, before).Waves?
      modifies this
      ensures Answered(Plan(pending, jobs, old(states)), old(order), old(history), done)
      ensures failure.None? ==>
        && Indexed(order, states)
        && Between(PendingIds(order, states, policy.factor), plans + [Plan(pending, jobs, old(states))]).Waves?
      ensures Evidence()
      ensures failure.Some? ==> failure.value.Faults? && failure.value.faults == faults != []
    {
      ghost var orderBefore := order;
      var finished;
      finished, done := Wave(|history|, jobs, true, states.Keys);
      if !finished {
        return Some(Faults(faults)), done;
      }
      NextWave(orderBefore, before, pending, order, states, plans, policy.factor, jobs);
      return None, done;
    }

    /** One retry wave, as the next of its course. */
    method RetryWave(pending: seq<Id>, byId: map<Id, Variant>, ghost first: seq<Job>, ghost plans: seq<Plan>)
      returns (failure: Option<Error>, ghost plans': seq<Plan>)
      requires Between(pending, plans).Waves? && Ran(first, plans, Now()) && pending != [] && byId == ById(variants)
      modifies this
      ensures PlansOk(plans', policy) && Course(history, first, plans', policy, environment)
      ensures failure.None? ==> |plans'| == |plans| + 1
      ensures failure.None? ==>
        Indexed(order, states) && Between(PendingIds(order, states, policy.factor), plans').Waves?
      ensures failure.None? || !failure.value.PlacementLimit? ==> Now() == TableOf(history, plans', policy)
      ensures Evidence()
      ensures failure.Some? && failure.value.Faults? ==> failure.value.faults == faults != []
      ensures failure.Some? && failure.value.PlacementLimit? ==> |plans'| == policy.maxAttempts
      ensures failure.Some? && failure.value.PlacementLimit? ==>
        SomePending(TableOf(history, plans', policy), policy.factor)
      ensures failure.Some? ==> !failure.value.NothingCompleted?
    {
      ghost var plan, done, before, history0 := None, [], Now(), history;
      assert pending[0] in pending && IsPending(Now().states[pending[0]], policy.factor);
      failure, plan, done := Retry(pending, byId, plans);
      plans' := plans;
      if plan.Some? {
        CourseNext(history0, done, first, plans, plan.value, policy, environment);
        plans' := plans + [plan.value];
      }
    }

    /** The first wave, and retry waves until nothing is pending. */
    method Tune(byId: map<Id, Variant>) returns (failure: Option<Error>, ghost first: seq<Job>, ghost plans: seq<Plan>)
      requires Valid() && Now() == EMPTY_TABLE && history == [] && seen == [] && byId == ById(variants)
      modifies this
      ensures FirstJobs(first, variants, policy.jobSize)
      ensures PlansOk(plans, policy) && Course(history, first, plans, policy, environment)
      ensures failure.None? || !failure.value.PlacementLimit? ==> Now() == TableOf(history, plans, policy)
      ensures failure.None? ==> Resting() && PendingIds(order, states, policy.factor) == []
      ensures Evidence()
      ensures failure.Some? && failure.value.Faults? ==> failure.value.faults == faults != []
      ensures failure.Some? && failure.value.PlacementLimit? ==> |plans| == policy.maxAttempts
      ensures failure.Some? && failure.value.PlacementLimit? ==>
        SomePending(TableOf(history, plans, policy), policy.factor)
      ensures failure.Some? ==> !failure.value.NothingCompleted?
    {
      plans := [];
      var ok;
      ok, first := Begin();
      if !ok {
        return Some(Faults(faults)), first, plans;
      }
      var pending := PendingIds(order, states, policy.factor);
      while pending != []
        invariant Between(pending, plans).Waves? && PlansOk(plans, policy)
        invariant Ran(first, plans, Now())
        decreases policy.maxAttempts - |plans|
      {
        failure, plans := RetryWave(pending, byId, first, plans);
        if failure.Some? {
          return;
        }
        pending := PendingIds(order, states, policy.factor);
      }
      failure := None;
    }

    /**
     Tunes every variant, and reports the best of those that completed all replicas. The
     history is what the workers answered to the first jobs and to those of the retry
     waves, and it determines the results: each configuration holds its first timings.
     With workers that answer every job with positive timings from at least `least` new
     GPUs, so that all attempts together are enough, the run succeeds.
     */
    method Run(ghost least: nat) returns (r: Result<Report, Error>, ghost first: seq<Job>, ghost plans: seq<Plan>)
      requires Valid() && Now() == EMPTY_TABLE && history == [] && seen == []
      modifies this
      ensures FirstJobs(first, variants, policy.jobSize)
      ensures PlansOk(plans, policy) && Course(history, first, plans, policy, environment)
      ensures r.Success? || !r.error.PlacementLimit? ==> Now() == TableOf(history, plans, policy)
      ensures r.Success? ==> Passed(r.value, variants, states, history, policy.factor)
      ensures Evidence()
      ensures r.Failure? && r.error.Faults? ==> r.error.faults == faults != []
      ensures r.Failure? && r.error.PlacementLimit? ==> |plans| == policy.maxAttempts
      ensures r.Failure? && r.error.PlacementLimit? ==> SomePending(TableOf(history, plans, policy), policy.factor)
      ensures r.Failure? && r.error.NothingCompleted? ==> forall id :: id in states ==> !states[id].status.Measured?
      ensures Tracked(TableOf(history, plans, policy), Observations(history), policy.factor)
      ensures
        && variants != [] && Distinct(VariantIds(variants)) && AllServed(first, plans, environment, least)
        && 1 <= least && policy.factor <= least * (policy.maxAttempts + 1)
        ==> r.Success?
    {
      var byId := ById(variants);
      var failure;
      failure, first, plans := Tune(byId);
      if failure.Some? {
        r := Failure(failure.value);
      } else {
        r := Conclude(byId);
      }
      TimingsRecorded(history, first, plans, policy, environment);
      if variants != [] && Distinct(VariantIds(variants)) && AllServed(first, plans, environment, least) && 1 <= least {
        ServedRun(history, first, plans, variants, policy, environment, least);
        SomethingMeasured(TableOf(history, plans, policy), variants);
      }
    }
  }
}
