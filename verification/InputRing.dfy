// A ring of independent input sets, cycled so that a timed call never finds its
// inputs in the L2 cache, and the final benchmark that pads it to whole graphs.
//
// A tensor is the address of its storage and two sizes. The factory that makes
// input sets may answer anything; what it answers depends on how often it was
// called and on the storages that are still held.

module InputRing {
  import opened Outcomes
  import opened Arithmetic
  import Sequences

  datatype Argument =
    | Scalar(equal: bool)
    | Tensor(pointer: int, storageBytes: nat, logicalBytes: nat, conforms: bool)

  type Inputs = seq<Argument>

  /** What was captured of an argument: a scalar, or a tensor of a storage group. */
  type Spec = Option<nat>

  type Factory = (nat, set<int>) -> Option<Inputs>

  datatype Error = Structure | Mismatch | Aliasing | Dependent | Footprints | TooManySets | RingTooLarge | Overlap
    | ZeroEstimate

  // ------------------------------------------------------------ one input set

  predicate Matches(a: Argument, spec: Spec) {
    if spec.None? then a.Scalar? && a.equal else a.Tensor? && a.conforms
  }

  ghost predicate Conforms(args: Inputs, specs: seq<Spec>) {
    && |args| == |specs|
    && forall i :: 0 <= i < |args| ==>
      if specs[i].None? then args[i].Scalar? && args[i].equal else args[i].Tensor? && args[i].conforms
  }

  /** Tensors share storage exactly where the captured ones did. */
  ghost predicate SameAliasing(args: Inputs, specs: seq<Spec>)
    requires |args| == |specs|
  {
    forall i, j :: 0 <= i < |args| && 0 <= j < |args| && args[i].Tensor? && args[j].Tensor? ==>
      (specs[i] == specs[j] <==> args[i].pointer == args[j].pointer)
  }

  ghost predicate Faithful(args: Inputs, specs: seq<Spec>) {
    Conforms(args, specs) && SameAliasing(args, specs)
  }

  function PointersOf(args: Inputs): (p: set<int>)
    ensures forall a :: a in args && a.Tensor? ==> a.pointer in p
  {
    set a | a in args && a.Tensor? :: a.pointer
  }

  /** The storages of a set in the order they are met, with their sizes. */
  datatype Layout = Layout(order: seq<int>, bytes: map<int, nat>, logical: map<int, nat>) {
    ghost predicate Valid() {
      && Sequences.Distinct(order)
      && bytes.Keys == logical.Keys == Sequences.Members(order)
    }

    function Footprint(): nat { Total(order, logical) }

    function Allocated(): nat { Total(order, bytes) }

    function Add(a: Argument): Layout
      requires a.Tensor?
    {
      Layout(
        if a.pointer in bytes then order else order + [a.pointer],
        bytes[a.pointer := a.storageBytes],
        logical[a.pointer :=
          if a.pointer in logical && logical[a.pointer] >= a.logicalBytes then logical[a.pointer] else a.logicalBytes])
    }
  }

  function Total(keys: seq<int>, sizes: map<int, nat>): nat {
    if keys == [] then 0
    else
      var last := keys[|keys| - 1];
      Total(keys[..|keys| - 1], sizes) + if last in sizes then sizes[last] else 0
  }

  function LayoutOf(args: Inputs): (layout: Layout)
  {
    if args == [] then Layout([], map[], map[])
    else
      var rest := LayoutOf(args[..|args| - 1]);
      var last := args[|args| - 1];
      if last.Tensor? then rest.Add(last) else rest
  }

  lemma AddValid(layout: Layout, a: Argument)
    requires layout.Valid() && a.Tensor?
    ensures layout.Add(a).Valid()
    ensures Sequences.Members(layout.Add(a).order) == Sequences.Members(layout.order) + {a.pointer}
  {
  }

  /** Every storage is counted once. */
  lemma {:induction false} LayoutKeys(args: Inputs)
    ensures LayoutOf(args).Valid()
    ensures Sequences.Members(LayoutOf(args).order) == PointersOf(args)
  {
    if args != [] {
      var init, last := args[..|args| - 1], args[|args| - 1];
      LayoutKeys(init);
      assert args == init + [last];
      if last.Tensor? {
        AddValid(LayoutOf(init), last);
      }
    }
  }

  /** What one more argument does to the largest tensors. */
  lemma AddLargest(layout: Layout, a: Argument, p: int)
    requires a.Tensor?
    ensures p in layout.Add(a).logical <==> p in layout.logical || p == a.pointer
    ensures p in layout.logical ==> layout.logical[p] <= layout.Add(a).logical[p]
    ensures a.logicalBytes <= layout.Add(a).logical[a.pointer]
    ensures p in layout.Add(a).logical ==>
      || (p in layout.logical && layout.Add(a).logical[p] == layout.logical[p])
      || (p == a.pointer && layout.Add(a).logical[p] == a.logicalBytes)
  {
  }

  lemma {:induction false} LayoutCovers(args: Inputs, a: Argument)
    requires a in args && a.Tensor?
    ensures a.pointer in LayoutOf(args).logical && a.logicalBytes <= LayoutOf(args).logical[a.pointer]
  {
    var init, last := args[..|args| - 1], args[|args| - 1];
    assert args == init + [last];
    if last.Tensor? {
      AddLargest(LayoutOf(init), last, a.pointer);
    }
    if a in init {
      LayoutCovers(init, a);
    }
  }

  lemma {:induction false} LayoutAttains(args: Inputs, p: int)
    requires p in LayoutOf(args).logical
    ensures Attained(args, p, LayoutOf(args).logical[p])
  {
    var init, last := args[..|args| - 1], args[|args| - 1];
    assert args == init + [last];
    if last.Tensor? {
      AddLargest(LayoutOf(init), last, p);
    }
    if p in LayoutOf(init).logical && LayoutOf(args).logical[p] == LayoutOf(init).logical[p] {
      LayoutAttains(init, p);
      AttainedLater(init, last, p, LayoutOf(init).logical[p]);
    } else {
      assert last in args;
    }
  }

  /** Every storage is counted once, with the largest tensor that lives in it. */
  lemma LayoutMeaning(args: Inputs)
    ensures LayoutOf(args).Valid()
    ensures Sequences.Members(LayoutOf(args).order) == PointersOf(args)
    ensures forall a :: a in args && a.Tensor? ==> a.logicalBytes <= LayoutOf(args).logical[a.pointer]
    ensures forall p :: p in LayoutOf(args).logical ==> Attained(args, p, LayoutOf(args).logical[p])
  {
    LayoutKeys(args);
    forall a | a in args && a.Tensor?
      ensures a.logicalBytes <= LayoutOf(args).logical[a.pointer]
    {
      LayoutCovers(args, a);
    }
    forall p | p in LayoutOf(args).logical
      ensures Attained(args, p, LayoutOf(args).logical[p])
    {
      LayoutAttains(args, p);
    }
  }

  lemma AttainedLater(args: Inputs, last: Argument, p: int, bytes: nat)
    requires Attained(args, p, bytes)
    ensures Attained(args + [last], p, bytes)
  {
    var a :| a in args && a.Tensor? && a.pointer == p && a.logicalBytes == bytes;
    assert a in args + [last];
  }

  ghost predicate Attained(args: Inputs, p: int, bytes: nat) {
    exists a :: a in args && a.Tensor? && a.pointer == p && a.logicalBytes == bytes
  }

  /** What the checks of the first n arguments establish. */
  ghost predicate FaithfulUpTo(args: Inputs, specs: seq<Spec>, n: nat)
    requires |args| == |specs| && n <= |args|
  {
    && (forall i :: 0 <= i < n ==> Matches(args[i], specs[i]))
    && forall i, j :: 0 <= i < n && 0 <= j < n && args[i].Tensor? && args[j].Tensor? ==>
      (specs[i] == specs[j] <==> args[i].pointer == args[j].pointer)
  }

  ghost predicate Grouped(args: Inputs, specs: seq<Spec>, n: nat, g: nat, pointer: int)
    requires |args| == |specs| && n <= |args|
  {
    exists j :: 0 <= j < n && args[j].Tensor? && specs[j] == Some(g) && args[j].pointer == pointer
  }

  /** The groups met so far, each with the storage of its tensors. */
  ghost predicate GroupsUpTo(args: Inputs, specs: seq<Spec>, n: nat, groups: map<nat, int>)
    requires |args| == |specs| && n <= |args|
  {
    && (forall j :: 0 <= j < n && args[j].Tensor? ==>
      specs[j].Some? && specs[j].value in groups && groups[specs[j].value] == args[j].pointer)
    && forall g :: g in groups ==> Grouped(args, specs, n, g, groups[g])
  }

  lemma NextTensor(args: Inputs, specs: seq<Spec>, n: nat, groups: map<nat, int>)
    requires |args| == |specs| && n < |args| && FaithfulUpTo(args, specs, n) && GroupsUpTo(args, specs, n, groups)
    requires Matches(args[n], specs[n]) && args[n].Tensor?
    ensures
      var g, p := specs[n].value, args[n].pointer;
      if if g in groups then groups[g] == p else p !in groups.Values
      then FaithfulUpTo(args, specs, n + 1) && GroupsUpTo(args, specs, n + 1, groups[g := p])
      else !SameAliasing(args, specs)
  {
    var g, p := specs[n].value, args[n].pointer;
    if g in groups && groups[g] != p {
      var j :| 0 <= j < n && args[j].Tensor? && specs[j] == Some(g) && args[j].pointer == groups[g];
      assert specs[j] == specs[n] && args[j].pointer != args[n].pointer;
    } else if g !in groups && p in groups.Values {
      var h :| h in groups && groups[h] == p;
      var j :| 0 <= j < n && args[j].Tensor? && specs[j] == Some(h) && args[j].pointer == p;
      assert specs[j] != specs[n] && args[j].pointer == args[n].pointer;
    } else {
      forall j | 0 <= j < n && args[j].Tensor?
        ensures specs[j] == specs[n] <==> args[j].pointer == p
      {
        if args[j].pointer == p {
          var k :| 0 <= k < n && args[k].Tensor? && specs[k] == Some(g) && args[k].pointer == p;
          assert specs[j] == specs[k];
        }
      }
      var after := groups[g := p];
      forall h | h in after
        ensures Grouped(args, specs, n + 1, h, after[h])
      {
        if h != g {
          assert Grouped(args, specs, n, h, groups[h]);
        }
      }
    }
  }

  lemma NextScalar(args: Inputs, specs: seq<Spec>, n: nat, groups: map<nat, int>)
    requires |args| == |specs| && n < |args| && FaithfulUpTo(args, specs, n) && GroupsUpTo(args, specs, n, groups)
    requires Matches(args[n], specs[n]) && args[n].Scalar?
    ensures FaithfulUpTo(args, specs, n + 1) && GroupsUpTo(args, specs, n + 1, groups)
  {
    forall h | h in groups
      ensures Grouped(args, specs, n + 1, h, groups[h])
    {
      assert Grouped(args, specs, n, h, groups[h]);
    }
  }

  /** Checks one generated set against what was captured. */
  method Describe(args: Inputs, specs: seq<Spec>) returns (r: Result<Layout, Error>)
    ensures r.Success? <==> Faithful(args, specs)
    ensures r.Success? ==> r.value == LayoutOf(args)
    ensures r.Failure? ==> r.error in {Structure, Mismatch, Aliasing}
  {
    if |args| != |specs| {
      return Failure(Structure);
    }
    var groups: map<nat, int> := map[];
    var layout := Layout([], map[], map[]);
    var i := 0;
    while i < |args|
      invariant 0 <= i <= |args|
      invariant layout == LayoutOf(args[..i])
      invariant FaithfulUpTo(args, specs, i) && GroupsUpTo(args, specs, i, groups)
    {
      assert args[..i + 1][..i] == args[..i];
      if !Matches(args[i], specs[i]) {
        return Failure(Mismatch);
      }
      if args[i].Tensor? {
        NextTensor(args, specs, i, groups);
        var group, pointer := specs[i].value, args[i].pointer;
        if group in groups && groups[group] != pointer {
          return Failure(Aliasing);
        }
        if group !in groups && pointer in groups.Values {
          return Failure(Aliasing);
        }
        groups := groups[group := pointer];
        layout := layout.Add(args[i]);
      } else {
        NextScalar(args, specs, i, groups);
      }
      i := i + 1;
    }
    assert args[..i] == args;
    return Success(layout);
  }

  // ------------------------------------------------------------------ the ring

  function Footprint(args: Inputs): nat { LayoutOf(args).Footprint() }

  function Allocated(args: Inputs): nat { LayoutOf(args).Allocated() }

  function AllPointers(sets: seq<Inputs>): set<int> {
    if sets == [] then {} else AllPointers(sets[..|sets| - 1]) + PointersOf(sets[|sets| - 1])
  }

  function AllBytes(sets: seq<Inputs>): nat {
    if sets == [] then 0 else AllBytes(sets[..|sets| - 1]) + Allocated(sets[|sets| - 1])
  }

  /** Each set was checked, has the common footprint, and shares no storage with an earlier one. */
  ghost predicate Independent(sets: seq<Inputs>, specs: seq<Spec>, footprint: nat) {
    sets != [] ==>
      var init, last := sets[..|sets| - 1], sets[|sets| - 1];
      && Faithful(last, specs) && Footprint(last) == footprint > 0
      && PointersOf(last) !! AllPointers(init)
      && Independent(init, specs, footprint)
  }

  lemma JoinsIndependently(args: Inputs, specs: seq<Spec>, sets: seq<Inputs>, footprint: nat)
    requires Independent(sets, specs, footprint)
    requires Usable(Some(args), specs, AllPointers(sets), if sets == [] then None else Some(footprint))
    ensures Independent(sets + [args], specs, Footprint(args))
    ensures AllPointers(sets + [args]) == AllPointers(sets) + PointersOf(args)
    ensures AllBytes(sets + [args]) == AllBytes(sets) + Allocated(args)
  {
    assert (sets + [args])[..|sets|] == sets;
  }

  lemma {:induction false} PointersMember(sets: seq<Inputs>, i: nat)
    requires i < |sets|
    ensures PointersOf(sets[i]) <= AllPointers(sets)
  {
    if i < |sets| - 1 {
      PointersMember(sets[..|sets| - 1], i);
    }
  }

  /** Any two sets of a ring live in different storages. */
  lemma {:induction false} PairwiseIndependent(sets: seq<Inputs>, specs: seq<Spec>, footprint: nat, i: nat, j: nat)
    requires Independent(sets, specs, footprint) && i < j < |sets|
    ensures PointersOf(sets[i]) !! PointersOf(sets[j])
  {
    var init := sets[..|sets| - 1];
    if j < |init| {
      PairwiseIndependent(init, specs, footprint, i, j);
    } else {
      PointersMember(init, i);
    }
  }

  /** All sets of a ring have the captured layout and the same footprint. */
  lemma {:induction false} EqualFootprints(sets: seq<Inputs>, specs: seq<Spec>, footprint: nat, i: nat)
    requires Independent(sets, specs, footprint) && i < |sets|
    ensures Faithful(sets[i], specs) && Footprint(sets[i]) == footprint > 0
  {
    if i < |sets| - 1 {
      EqualFootprints(sets[..|sets| - 1], specs, footprint, i);
    }
  }

  /**
   Checks what the factory made against the captured layout, the storages of the
   ring, its footprint if it has one already, and the bytes that are left.
   */
  method Inspect(made: Option<Inputs>, specs: seq<Spec>, pointers: set<int>, common: Option<nat>, bytesLeft: nat)
    returns (r: Result<Inputs, Error>)
    ensures r.Success? <==> Usable(made, specs, pointers, common) && Allocated(made.value) <= bytesLeft
    ensures r.Success? ==> made == Some(r.value)
    ensures r == Failure(RingTooLarge) <==> Usable(made, specs, pointers, common) && Allocated(made.value) > bytesLeft
    ensures r.Failure? ==> r.error in {Structure, Mismatch, Aliasing, Dependent, Footprints, RingTooLarge}
  {
    if made.None? {
      return Failure(Structure);
    }
    var described := Describe(made.value, specs);
    if described.Failure? {
      return Failure(described.error);
    }
    LayoutMeaning(made.value);
    var layout := described.value;
    assert layout.bytes.Keys == PointersOf(made.value);
    if layout.Footprint() == 0 || !(pointers !! layout.bytes.Keys) {
      return Failure(Dependent);
    }
    if common.Some? && layout.Footprint() != common.value {
      return Failure(Footprints);
    }
    if layout.Allocated() > bytesLeft {
      return Failure(RingTooLarge);
    }
    return Success(made.value);
  }

  ghost predicate Usable(made: Option<Inputs>, specs: seq<Spec>, pointers: set<int>, common: Option<nat>) {
    && made.Some? && Faithful(made.value, specs) && Footprint(made.value) > 0
    && (common.Some? ==> Footprint(made.value) == common.value)
    && PointersOf(made.value) !! pointers
  }

  /** Of a factory: sizes of the sets it makes from its n-th call on. */
  ghost function SumSizes(size: nat -> nat, from: nat, count: nat): nat
    decreases count
  {
    if count == 0 then 0 else size(from) + SumSizes(size, from + 1, count - 1)
  }

  lemma {:induction false} UniformSizes(size: nat -> nat, from: nat, count: nat, bytes: nat)
    requires forall n: nat :: size(n) == bytes
    ensures SumSizes(size, from, count) == count * bytes
    decreases count
  {
    if count > 0 {
      UniformSizes(size, from + 1, count - 1, bytes);
    }
  }

  /** A first set and the others of the same size. */
  lemma UniformTotal(size: nat -> nat, from: nat, count: nat)
    requires count >= 1 && forall n: nat :: size(n) == size(0)
    ensures size(0) + SumSizes(size, from, count - 1) == count * size(0)
  {
    UniformSizes(size, from, count - 1, size(0));
    Distribute(1, count - 1, size(0));
  }

  /** A working factory: storage that nobody holds, the captured layout, sizes known in advance. */
  ghost predicate Works(factory: Factory, specs: seq<Spec>, footprint: nat, size: nat -> nat) {
    forall n: nat, held: set<int> :: Suits(factory(n, held), held, specs, footprint, size(n))
  }

  ghost predicate Suits(made: Option<Inputs>, held: set<int>, specs: seq<Spec>, footprint: nat, bytes: nat) {
    && made.Some? && Faithful(made.value, specs) && PointersOf(made.value) !! held
    && Footprint(made.value) == footprint > 0 && Allocated(made.value) == bytes
  }

  /** What a working factory makes is usable by the ring. */
  lemma SuitsUsable(made: Option<Inputs>, held: set<int>, pointers: set<int>, specs: seq<Spec>, footprint: nat,
                    bytes: nat, common: Option<nat>)
    requires Suits(made, held + pointers, specs, footprint, bytes) && (common.Some? ==> common.value == footprint)
    ensures Usable(made, specs, pointers, common) && Footprint(made.value) == footprint &&
      Allocated(made.value) == bytes
  {
  }

  // ------------------------------------------------------------- timed calls

  /** One timed call: its round, its candidate, and the inputs it was given. */
  datatype Call = Call(round: nat, candidate: nat, inputs: Inputs)

  predicate Precedes(a: Call, b: Call) {
    a.round < b.round || (a.round == b.round && a.candidate < b.candidate)
  }

  /** Calls run round by round, and `events` holds the position of every call. */
  ghost predicate Indexed(events: seq<seq<nat>>, calls: seq<Call>) {
    && (forall t, u :: 0 <= t < u < |calls| ==> Precedes(calls[t], calls[u]))
    && (forall t :: 0 <= t < |calls| ==> Holds(events, calls[t].candidate, calls[t].round, t))
    && forall c, k :: 0 <= c < |events| && 0 <= k < |events[c]| ==>
      events[c][k] < |calls| && calls[events[c][k]].candidate == c && calls[events[c][k]].round == k
  }

  predicate Holds(events: seq<seq<nat>>, candidate: nat, round: nat, position: nat) {
    candidate < |events| && round < |events[candidate]| && events[candidate][round] == position
  }

  /** Every call gets the set whose turn it is. */
  ghost predicate InTurn(calls: seq<Call>, sets: seq<Inputs>, start: nat)
    requires sets != []
  {
    forall t :: 0 <= t < |calls| ==> calls[t].inputs == sets[(start + t) % |sets|]
  }

  /** Every call up to a candidate of a round was made. */
  ghost predicate Reached(events: seq<seq<nat>>, counts: seq<nat>, round: nat, candidate: nat) {
    |events| == |counts| && forall c :: 0 <= c < |counts| ==>
      |events[c]| == Least(counts[c], if c < candidate then round + 1 else round)
  }

  function Least(a: nat, b: nat): nat { if a <= b then a else b }

  lemma NextCall(events: seq<seq<nat>>, calls: seq<Call>, counts: seq<nat>, round: nat, candidate: nat, inputs: Inputs)
    requires Indexed(events, calls) && Reached(events, counts, round, candidate)
    requires candidate < |counts| && round < counts[candidate]
    ensures
      var more := events[candidate := events[candidate] + [|calls|]];
      Indexed(more, calls + [Call(round, candidate, inputs)]) && Reached(more, counts, round, candidate + 1)
  {
    var call := Call(round, candidate, inputs);
    forall t | 0 <= t < |calls|
      ensures Precedes(calls[t], call)
    {
      assert Holds(events, calls[t].candidate, calls[t].round, t);
    }
    var more, after := events[candidate := events[candidate] + [|calls|]], calls + [call];
    forall t | 0 <= t < |after|
      ensures Holds(more, after[t].candidate, after[t].round, t)
    {
      if t < |calls| {
        assert Holds(events, calls[t].candidate, calls[t].round, t);
      }
    }
  }

  /** Any n consecutive turns of a ring of n sets use every set exactly once. */
  lemma WindowUsesEachOnce(n: nat, start: nat, member: nat)
    requires member < n
    ensures exists t: nat :: start <= t < start + n && t % n == member
    ensures forall t: nat, u: nat :: start <= t < u < start + n ==> t % n != u % n
  {
    WindowUsesEach(n, start, member);
    forall t: nat, u: nat | start <= t < u < start + n && t % n == u % n
      ensures false
    {
      SameTurn(n, t, u);
    }
  }

  lemma WindowUsesEach(n: nat, start: nat, member: nat)
    requires member < n
    ensures exists t: nat :: start <= t < start + n && t % n == member
  {
    var q, r := start / n, start % n;
    assert start == q * n + r;
    DivideOf(q, n, member);
    DivideOf(q + 1, n, member);
    Distribute(q, 1, n);
    var t := (if r <= member then q else q + 1) * n + member;
    assert t % n == member && start <= t < start + n;
  }

  /** Turns that use the same set are at least a whole ring apart. */
  lemma SameTurn(n: nat, t: nat, u: nat)
    requires n > 0 && t < u && t % n == u % n
    ensures u - t >= n
  {
    assert t == (t / n) * n + t % n;
    assert u == (u / n) * n + u % n;
    Monotone(t / n, u / n, n);
    Monotone(u / n, t / n, n);
  }

  /** The same for graphs of z calls: between two replays of one graph. */
  lemma ReplayExceedsCache(graphs: nat, z: nat, k: nat, l: nat, footprint: nat, l2: nat)
    requires graphs > 0 && k < l && k % graphs == l % graphs && graphs * (z * footprint) > l2
    ensures (l - k) * (z * footprint) > l2
  {
    ReuseExceedsCache(graphs, k, l, z * footprint, l2);
  }

  /** The number of sets that `Ring.Start` makes is the least that exceeds the cache. */
  lemma JustExceeds(l2: nat, footprint: nat)
    requires footprint > 0
    ensures (l2 / footprint + 1) * footprint > l2 >= (l2 / footprint) * footprint
  {
    assert l2 == (l2 / footprint) * footprint + l2 % footprint;
    assert (l2 / footprint + 1) * footprint == (l2 / footprint) * footprint + footprint;
  }

  /** Between two uses of the same set, more bytes are touched than the cache holds. */
  lemma ReuseExceedsCache(n: nat, t: nat, u: nat, footprint: nat, l2: nat)
    requires n > 0 && t < u && t % n == u % n && n * footprint > l2
    ensures (u - t) * footprint > l2
  {
    SameTurn(n, t, u);
    Monotone(n, u - t, footprint);
  }

  // ------------------------------------------------------------------ graphs

  datatype Settings = Settings(minTrials: nat, maxTrials: nat, minCalls: nat, maxCalls: nat, graphUs: real,
      finalUs: real,
                               flushIterations: nat)
  {
    predicate Valid() {
      && 1 <= minTrials <= maxTrials && 1 <= minCalls <= maxCalls && 1 <= flushIterations
      && graphUs > 0.0 && finalUs > 0.0
    }
  }

  function Ceil(x: real): int { -((-x).Floor) }

  function CallsPerGraph(s: Settings, estimate: real): (z: nat)
    requires estimate != 0.0
    ensures z >= 1
    ensures s.Valid() ==> z <= s.maxCalls
  {
    var fitting := (s.graphUs / estimate).Floor;
    var calls := if fitting <= s.maxCalls then fitting else s.maxCalls;
    if calls >= 1 then calls else 1
  }

  function Trials(s: Settings, us: real): (count: nat)
    requires s.Valid() && us != 0.0
    ensures 1 <= count <= s.maxTrials
  {
    var wanted := Ceil(s.finalUs / us);
    var count := if wanted >= s.minTrials then wanted else s.minTrials;
    if count <= s.maxTrials then count else s.maxTrials
  }

  /** A count compared with a ratio, and its product with the total. */
  lemma CountTimes(count: int, total: real, each: real)
    requires each > 0.0
    ensures count as real <= total / each ==> count as real * each <= total
    ensures count as real >= total / each ==> count as real * each >= total
    ensures count as real < total / each ==> count as real * each < total
    ensures count as real > total / each ==> count as real * each > total
  {
    var x, y := count as real, total / each;
    assert y * each == total;
    assert (y - x) * each == y * each - x * each;
  }

  /** As many calls as fit the duration of a graph, but at least one and at most the maximum. */
  lemma CallsPerGraphMeaning(s: Settings, estimate: real)
    requires s.Valid() && estimate > 0.0
    ensures
      var z := CallsPerGraph(s, estimate);
      && 1 <= z <= s.maxCalls
      && (z > 1 ==> z as real * estimate <= s.graphUs)
      && (z < s.maxCalls ==> (z + 1) as real * estimate > s.graphUs)
  {
    var z := CallsPerGraph(s, estimate);
    CountTimes(z, s.graphUs, estimate);
    CountTimes(z + 1, s.graphUs, estimate);
  }

  /** As many trials as fill the final duration, within the least and the greatest number. */
  lemma TrialsMeaning(s: Settings, us: real)
    requires s.Valid() && us > 0.0
    ensures
      var n := Trials(s, us);
      && s.minTrials <= n <= s.maxTrials
      && (n < s.maxTrials ==> n as real * us >= s.finalUs)
      && (n > s.minTrials ==> (n - 1) as real * us < s.finalUs)
  {
    var n := Trials(s, us);
    CountTimes(n, s.finalUs, us);
    CountTimes(n - 1, s.finalUs, us);
  }

  /** The number of replays of a graph of z calls. */
  function GraphCount(s: Settings, z: nat, estimate: real): (count: nat)
    requires s.Valid() && z >= 1 && estimate != 0.0
    ensures 1 <= count <= s.maxTrials
  {
    NonzeroProduct(z as real, estimate);
    Trials(s, z as real * estimate)
  }

  /** As many replays as fill the final duration, z calls each, within the least and the greatest number. */
  lemma GraphCountMeaning(s: Settings, z: nat, estimate: real)
    requires s.Valid() && z >= 1 && estimate > 0.0
    ensures
      var n := GraphCount(s, z, estimate);
      && s.minTrials <= n <= s.maxTrials
      && (n < s.maxTrials ==> (n * z) as real * estimate >= s.finalUs)
      && (n > s.minTrials ==> ((n - 1) * z) as real * estimate < s.finalUs)
  {
    var n, each := GraphCount(s, z, estimate), z as real * estimate;
    TrialsMeaning(s, each);
    Regroup(n, z, estimate);
    Regroup(n - 1, z, estimate);
  }

  lemma Regroup(n: int, z: nat, estimate: real)
    ensures n as real * (z as real * estimate) == (n * z) as real * estimate
  {
    assert (n * z) as real == n as real * z as real;
  }

  lemma NonzeroProduct(x: real, y: real)
    requires x != 0.0 && y != 0.0
    ensures x * y != 0.0
  {
    assert x * y / y == x;
  }

  /** The least multiple of z that holds n sets. */
  function Padded(n: nat, z: nat): (p: nat)
    requires z >= 1
  {
    (n + z - 1) / z * z
  }

  lemma PaddedMeaning(n: nat, z: nat)
    requires z >= 1
    ensures n <= Padded(n, z) < n + z && Padded(n, z) % z == 0
  {
    var m := n + z - 1;
    assert m == (m / z) * z + m % z;
    DivideOf(m / z, z, 0);
  }

  /** Among z consecutive numbers there is one multiple of z. */
  lemma OneMultiple(n: nat, z: nat, p: nat, q: nat)
    requires z >= 1 && n <= p < n + z && n <= q < n + z && p % z == 0 && q % z == 0
    ensures p == q
  {
    if p < q {
      SameTurn(z, p, q);
    } else if q < p {
      SameTurn(z, q, p);
    }
  }

  lemma AverageTimes(p: nat, taken: nat, n: nat, limit: nat)
    requires n >= 1
    ensures p as real * (taken as real / n as real) <= limit as real <==> p * taken <= limit * n
  {
    var average := taken as real / n as real;
    assert average * n as real == taken as real;
    assert p as real * average * n as real == p as real * taken as real == (p * taken) as real;
    assert limit as real * n as real == (limit * n) as real;
    assert (limit as real - p as real * average) * n as real == (limit * n) as real - (p * taken) as real;
  }

  /** The memory that the padded ring is expected to take, from the average of its sets. */
  predicate GraphsFit(n: nat, z: nat, taken: nat, maxSets: nat, maxBytes: nat)
    requires z >= 1 && n >= 1
  {
    Padded(n, z) <= maxSets && Padded(n, z) as real * (taken as real / n as real) <= maxBytes as real
  }

  /** Of sets that all have one size, the expectation is the truth. */
  lemma UniformFits(n: nat, z: nat, size: nat -> nat, from: nat, maxSets: nat, maxBytes: nat)
    requires z >= 1 && n >= 1 && GraphsFit(n, z, n * size(0), maxSets, maxBytes)
    requires forall i: nat :: size(i) == size(0)
    ensures Padded(n, z) >= n && n * size(0) + SumSizes(size, from, Padded(n, z) - n) <= maxBytes
  {
    PaddedMeaning(n, z);
    var p, bytes := Padded(n, z), size(0);
    UniformSizes(size, from, p - n, bytes);
    AverageOfEqual(n, bytes);
    RealProduct(p, bytes);
    assert n * bytes + (p - n) * bytes == p * bytes;
  }

  /** The sizes of a factory that makes one set of ten bytes, and then sets of eleven. */
  function TenThenEleven(n: nat): nat { if n == 0 then 10 else 11 }

  ghost function Above(held: set<int>): (top: int)
    ensures forall q :: q in held ==> q < top
  {
    if p :| p in held then
      var top := Above(held - {p});
      assert forall q :: q in held ==> q == p || q in held - {p};
      if p < top then top else p + 1
    else 0
  }

  /**
   A working factory whose sets differ in size: graphs of two calls are found to fit a
   ring of one set into twenty bytes, and the second set exceeds them.
   */
  lemma PaddingMayExceed() returns (factory: Factory)
    ensures Works(factory, [Some(0)], 10, TenThenEleven)
    ensures GraphsFit(1, 2, TenThenEleven(0), 2, 20)
    ensures TenThenEleven(0) + SumSizes(TenThenEleven, 1, Padded(1, 2) - 1) > 20
  {
    factory := (n: nat, held: set<int>) => Some([Tensor(Above(held), TenThenEleven(n), 10, true)]);
    forall n: nat, held: set<int>
      ensures Suits(factory(n, held), held, [Some(0)], 10, TenThenEleven(n))
    {
      SingleTensor(Above(held), TenThenEleven(n), 10);
      assert Above(held) !in held;
    }
    PaddedMeaning(1, 2);
    assert Padded(1, 2) == 2;
    assert SumSizes(TenThenEleven, 1, 1) == 11 + SumSizes(TenThenEleven, 2, 0);
  }

  lemma TotalOne(pointer: int, sizes: map<int, nat>)
    requires pointer in sizes
    ensures Total([pointer], sizes) == sizes[pointer]
  {
    assert [pointer][..0] == [];
  }

  lemma SingleTensor(pointer: int, bytes: nat, logical: nat)
    ensures var args := [Tensor(pointer, bytes, logical, true)];
      PointersOf(args) == {pointer} && Footprint(args) == logical && Allocated(args) == bytes
  {
    var args := [Tensor(pointer, bytes, logical, true)];
    assert args[..0] == [];
    assert LayoutOf(args) == Layout([], map[], map[]).Add(args[0]);
    assert LayoutOf(args).order == [pointer];
    TotalOne(pointer, LayoutOf(args).bytes);
    TotalOne(pointer, LayoutOf(args).logical);
  }

  lemma RealProduct(a: nat, b: nat)
    ensures a as real * b as real == (a * b) as real
  {
  }

  lemma AverageOfEqual(n: nat, bytes: nat)
    requires n >= 1
    ensures (n * bytes) as real / n as real == bytes as real
  {
    RealProduct(n, bytes);
  }

  /** Slices of z of a list whose length is a multiple of z are all full. */
  lemma FullSlices<T>(parts: seq<seq<T>>, s: seq<T>, z: nat, count: nat)
    requires z >= 1 && Sequences.Flatten(parts) == s && |s| == count * z
    requires forall k :: 0 <= k < |parts| ==> 0 < |parts[k]| <= z
    requires forall k :: 0 <= k < |parts| - 1 ==> |parts[k]| == z
    ensures forall k :: 0 <= k < |parts| ==> |parts[k]| == z
    ensures |parts| == count
  {
    if parts == [] {
      Monotone(1, count, z);
    } else {
      var n := |parts| - 1;
      SliceLengths(parts[..n], z);
      ExactMultiple(n, |parts[n]|, count, z);
    }
  }

  lemma ExactMultiple(n: nat, rest: nat, count: nat, z: nat)
    requires n * z + rest == count * z && 0 < rest <= z
    ensures rest == z && count == n + 1
  {
    Monotone(count, n, z);
    Monotone(n + 1, count, z);
    Distribute(n, 1, z);
  }

  lemma {:induction false} SliceLengths<T>(parts: seq<seq<T>>, z: nat)
    requires forall k :: 0 <= k < |parts| ==> |parts[k]| == z
    ensures |Sequences.Flatten(parts)| == |parts| * z
  {
    if parts != [] {
      SliceLengths(parts[..|parts| - 1], z);
      Distribute(|parts| - 1, 1, z);
    }
  }

  ghost predicate Smallest(x: real, xs: seq<real>) {
    x in xs && forall y :: y in xs ==> x <= y
  }

  method Minimum(xs: seq<real>) returns (x: real)
    requires xs != []
    ensures Smallest(x, xs)
  {
    x := xs[0];
    for k := 1 to |xs|
      invariant Smallest(x, xs[..k])
    {
      assert xs[..k + 1] == xs[..k] + [xs[k]];
      if xs[k] < x {
        x := xs[k];
      }
    }
    assert xs[..|xs|] == xs;
  }

  /**
   What the final benchmark reports: its trials, the input sets that each trial
   ran over, and the graphs if it used graphs.
   */
  datatype Report = Report(runtimeUs: real, trialUs: seq<real>, callsPerGraph: nat, graphs: seq<seq<Inputs>>,
                           used: seq<seq<Inputs>>)

  class Ring {
    const factory: Factory
    const specs: seq<Spec>
    const maxSets: nat
    const maxBytes: nat
    /** The time between the two events of the n-th timed interval, in milliseconds. */
    const elapsed: nat -> real
    /** The footprint and the sizes of what the factory makes, if it works. */
    ghost const unit: nat
    ghost const size: nat -> nat
    var sets: seq<Inputs>
    var pointers: set<int>
    var allocatedBytes: nat
    var cursor: nat
    var footprint: nat
    var requiresFlush: bool
    /** Calls of the factory so far. */
    var made: nat

    constructor (factory: Factory, specs: seq<Spec>, maxSets: nat, maxBytes: nat, elapsed: nat -> real, made: nat,
                 ghost unit: nat, ghost size: nat -> nat)
      ensures this.factory == factory && this.specs == specs && this.maxSets == maxSets && this.maxBytes == maxBytes
      ensures this.unit == unit && this.size == size && this.elapsed == elapsed && !requiresFlush
      ensures Valid() && sets == [] && cursor == 0 && this.made == made
    {
      this.factory, this.specs, this.maxSets, this.maxBytes := factory, specs, maxSets, maxBytes;
      this.unit, this.size, this.elapsed := unit, size, elapsed;
      sets, pointers, allocatedBytes, cursor, footprint := [], {}, 0, 0, 0;
      requiresFlush, this.made := false, made;
    }

    ghost predicate Valid()
      reads this
    {
      && |sets| <= maxSets && allocatedBytes == AllBytes(sets) <= maxBytes
      && pointers == AllPointers(sets)
      && (sets != [] ==> footprint > 0)
      && Independent(sets, specs, footprint)
    }

    ghost predicate Working() {
      Works(factory, specs, unit, size)
    }

    /** What the factory makes next, while the ring and `held` are in use. */
    function Candidate(held: set<int>): Option<Inputs>
      reads this
    {
      factory(made, held + pointers)
    }

    function Common(): Option<nat>
      reads this
    {
      if sets == [] then None else Some(footprint)
    }

    ghost predicate Accepts(held: set<int>)
      reads this
    {
      |sets| < maxSets && Usable(Candidate(held), specs, pointers, Common())
    }

    /** What a usable candidate takes. */
    function Size(held: set<int>): nat
      reads this
    {
      if Candidate(held).Some? then Allocated(Candidate(held).value) else 0
    }

    /** One more set, or an error that leaves the ring as it was. */
    method Append(held: set<int>) returns (r: Result<Inputs, Error>)
      requires Valid()
      modifies this`sets, this`pointers, this`allocatedBytes, this`footprint, this`made
      ensures Valid()
      ensures r.Success? <==> old(Accepts(held) && allocatedBytes + Size(held) <= maxBytes)
      ensures r == Failure(RingTooLarge) <==> old(Accepts(held) && allocatedBytes + Size(held) > maxBytes)
      ensures r == Failure(TooManySets) <==> |old(sets)| >= maxSets
      ensures r != Failure(ZeroEstimate) && r != Failure(Overlap)
      ensures r.Success? ==>
        && Some(r.value) == old(Candidate(held)) && sets == old(sets) + [r.value] && footprint == Footprint(r.value)
        && allocatedBytes == old(allocatedBytes + Size(held))
      ensures r.Failure? ==>
        sets == old(sets) && pointers == old(pointers) && allocatedBytes == old(allocatedBytes) &&
          footprint == old(footprint)
      ensures made == old(made) + (if r == Failure(TooManySets) then 0 else 1)
      ensures old(sets) != [] ==> footprint == old(footprint)
    {
      if |sets| >= maxSets {
        return Failure(TooManySets);
      }
      var candidate := Candidate(held);
      made := made + 1;
      r := Inspect(candidate, specs, pointers, Common(), maxBytes - allocatedBytes);
      if r.Success? {
        JoinsIndependently(r.value, specs, sets, footprint);
        Commit(r.value);
      }
    }

    method Commit(args: Inputs)
      requires Valid() && |sets| < maxSets && allocatedBytes + Allocated(args) <= maxBytes && Footprint(args) > 0
      requires Independent(sets + [args], specs, Footprint(args))
      requires AllPointers(sets + [args]) == AllPointers(sets) + PointersOf(args)
      requires AllBytes(sets + [args]) == AllBytes(sets) + Allocated(args)
      modifies this`sets, this`pointers, this`allocatedBytes, this`footprint
      ensures Valid() && sets == old(sets) + [args] && footprint == Footprint(args)
      ensures allocatedBytes == old(allocatedBytes) + Allocated(args)
    {
      footprint := Footprint(args);
      allocatedBytes := allocatedBytes + Allocated(args);
      pointers := pointers + PointersOf(args);
      sets := sets + [args];
    }

    /** A working factory always makes what the ring accepts. */
    lemma WorkingAccepts(held: set<int>)
      requires Working() && (sets == [] || footprint == unit) && |sets| < maxSets
      ensures Accepts(held) && Size(held) == size(made) && Footprint(Candidate(held).value) == unit
    {
      assert Suits(factory(made, held + pointers), held + pointers, specs, unit, size(made));
      SuitsUsable(Candidate(held), held, pointers, specs, unit, size(made), Common());
    }

    lemma WorkingAvoids(held: set<int>)
      requires Working()
      ensures Candidate(held).Some? && PointersOf(Candidate(held).value) !! held
    {
      assert Suits(factory(made, held + pointers), held + pointers, specs, unit, size(made));
    }

    /** One more set for a ring that nothing else shares the device with. */
    method Extend(ghost works: bool) returns (r: Option<Error>)
      requires Valid() && |sets| < maxSets && (works ==> Working() && (sets == [] || footprint == unit))
      modifies this`sets, this`pointers, this`allocatedBytes, this`footprint, this`made
      ensures Valid() && r != Some(ZeroEstimate) && r != Some(Overlap) && made == old(made) + 1
      ensures old(sets) <= sets && |sets| == |old(sets)| + if r.None? then 1 else 0
      ensures old(sets) != [] ==> footprint == old(footprint)
      ensures works && old(allocatedBytes) + size(old(made)) > maxBytes ==> r == Some(RingTooLarge)
      ensures works && old(allocatedBytes) + size(old(made)) <= maxBytes ==>
        r.None? && allocatedBytes == old(allocatedBytes) + size(old(made)) && footprint == unit
    {
      if works {
        WorkingAccepts({});
      }
      var appended := Append({});
      r := if appended.Success? then None else Some(appended.error);
    }

    /**
     Appends sets until there are `count`. With a working factory this succeeds
     exactly when the limits of the ring allow it.
     */
    method Ensure(count: nat) returns (r: Option<Error>)
      requires Valid()
      modifies this`sets, this`pointers, this`allocatedBytes, this`footprint, this`made
      ensures Valid()
      ensures old(sets) <= sets && r != Some(ZeroEstimate) && r != Some(Overlap)
      ensures old(sets) != [] ==> footprint == old(footprint)
      ensures r.None? ==> |sets| == if |old(sets)| >= count then |old(sets)| else count
      ensures Working() && (old(sets) == [] || old(footprint) == unit) && |old(sets)| <= count ==>
        if count > maxSets then r == Some(TooManySets)
        else if old(allocatedBytes) + SumSizes(size, old(made), count - |old(sets)|) > maxBytes
          then r == Some(RingTooLarge)
        else r.None?
    {
      if count > maxSets {
        return Some(TooManySets);
      }
      ghost var works := Working() && (sets == [] || footprint == unit) && |sets| <= count;
      ghost var total := if works then allocatedBytes + SumSizes(size, made, count - |sets|) else 0;
      while |sets| < count
        invariant Valid() && old(sets) <= sets && (old(sets) != [] ==> footprint == old(footprint))
        invariant |sets| <= count || sets == old(sets)
        invariant works ==> (sets == [] || footprint == unit) && |sets| <= count
        invariant works ==> allocatedBytes + SumSizes(size, made, count - |sets|) == total
        decreases count - |sets|
      {
        assert works ==>
          SumSizes(size, made, count - |sets|) == size(made) + SumSizes(size, made + 1, count - |sets| - 1);
        r := Extend(works);
        if r.Some? {
          return;
        }
      }
      return None;
    }

    /**
     The first set decides how many are needed to exceed the cache. Either that
     many are made, and no fewer would do, or one set is kept and the cache must
     be flushed before every timed call.
     */
    method Start(l2: nat, held: set<int>) returns (r: Option<Error>)
      requires Valid() && sets == [] && !requiresFlush
      modifies this
      ensures Valid() && cursor == old(cursor)
      ensures r.None? ==> footprint > 0 && sets != []
      ensures r.None? && requiresFlush ==>
        |sets| == 1 && (l2 / footprint + 1 > maxSets || (l2 / footprint + 1) * allocatedBytes > maxBytes)
      ensures r.None? && !requiresFlush ==> |sets| == l2 / footprint + 1
      ensures maxSets == 0 ==> r == Some(TooManySets)
      ensures Working() && UniformSize() && maxSets >= 1 && size(0) <= maxBytes ==> r.None?
      ensures Working() && sets != [] ==> PointersOf(sets[0]) !! held
      ensures r != Some(Overlap)
    {
      if Working() && maxSets >= 1 {
        WorkingAccepts(held);
        WorkingAvoids(held);
      }
      var first := Append(held);
      if first.Failure? {
        return Some(first.error);
      }
      r := Fill(l2);
    }

    method Fill(l2: nat) returns (r: Option<Error>)
      requires Valid() && |sets| == 1
      modifies this`sets, this`pointers, this`allocatedBytes, this`footprint, this`requiresFlush, this`made
      ensures Valid() && footprint > 0 && old(sets) <= sets && r != Some(Overlap)
      ensures r.None? && requiresFlush ==>
        |sets| == 1 && (l2 / footprint + 1 > maxSets || (l2 / footprint + 1) * allocatedBytes > maxBytes)
      ensures r.None? && !requiresFlush ==> |sets| == l2 / footprint + 1
      ensures Working() && UniformSize() && old(footprint) == unit && old(allocatedBytes) == size(0) ==> r.None?
    {
      var count := l2 / footprint + 1;
      assert count >= 1;
      requiresFlush := count > maxSets || count * allocatedBytes > maxBytes;
      if requiresFlush {
        return None;
      }
      if UniformSize() {
        UniformTotal(size, made, count);
      }
      r := Ensure(count);
    }

    /** The factory makes sets of one size. */
    ghost predicate UniformSize() {
      forall n: nat :: size(n) == size(0)
    }

    /** The sets in turn. */
    method Next() returns (args: Inputs)
      requires Valid() && sets != []
      modifies this`cursor
      ensures args == sets[old(cursor) % |sets|] && cursor == old(cursor) + 1
    {
      args := sets[cursor % |sets|];
      cursor := cursor + 1;
    }

    /** Inputs for an evaluation, on storages that the ring does not use. */
    method Fresh() returns (r: Result<Inputs, Error>)
      requires Valid()
      modifies this`made
      ensures r.Success? ==> Faithful(r.value, specs) && PointersOf(r.value) !! pointers && Footprint(r.value) > 0
      ensures Working() && UniformSize() && size(0) <= maxBytes ==> r.Success?
      ensures Working() ==> r != Failure(Overlap)
    {
      var ring := new Ring(factory, specs, 1, maxBytes, elapsed, made, unit, size);
      var failed := ring.Start(0, pointers);
      made := ring.made;
      if failed.Some? {
        return Failure(failed.value);
      }
      EqualFootprints(ring.sets, specs, ring.footprint, 0);
      assert ring.sets[..0] == [];
      assert AllPointers(ring.sets) == PointersOf(ring.sets[0]);
      if !(pointers !! ring.pointers) {
        return Failure(Overlap);
      }
      return Success(ring.sets[0]);
    }

    /**
     Interleaves the candidates, round by round, over the turns of the ring.
     `calls` is what ran, in order; every candidate gets its count of timings.
     */
    method Interleave(counts: seq<nat>, flushIterations: nat)
      returns (times: seq<seq<real>>, calls: seq<Call>, flushes: nat)
      requires Valid() && sets != [] && counts != []
      modifies this`cursor
      ensures |times| == |counts| && forall c :: 0 <= c < |counts| ==> |times[c]| == counts[c]
      ensures forall t, u :: 0 <= t < u < |calls| ==> Precedes(calls[t], calls[u])
      ensures forall t :: 0 <= t < |calls| ==>
        && calls[t].candidate < |counts| && calls[t].round < counts[calls[t].candidate]
        && calls[t].inputs == sets[(old(cursor) + t) % |sets|]
        && times[calls[t].candidate][calls[t].round] == elapsed(t) * 1000.0
      ensures forall c, k :: 0 <= c < |counts| && 0 <= k < counts[c] ==> Made(calls, c, k)
      ensures cursor == old(cursor) + |calls|
      ensures flushes == flushIterations + if requiresFlush then |calls| else 0
    {
      flushes := flushIterations;
      var events: seq<seq<nat>> := seq(|counts|, _ => []);
      calls := [];
      var most := counts[0];
      for c := 0 to |counts|
        invariant forall d :: 0 <= d < c ==> counts[d] <= most
      {
        if counts[c] > most {
          most := counts[c];
        }
      }
      var round := 0;
      while round < most
        invariant 0 <= round && (forall c :: 0 <= c < |counts| ==> counts[c] <= most)
        invariant round <= most || most == 0
        invariant Indexed(events, calls) && Reached(events, counts, round, 0)
        invariant InTurn(calls, sets, old(cursor)) && cursor == old(cursor) + |calls|
        invariant flushes == flushIterations + if requiresFlush then |calls| else 0
      {
        events, calls, flushes := Round(events, calls, counts, round, flushes, old(cursor));
        round := round + 1;
      }
      times := Timings(events);
      forall t | 0 <= t < |calls|
        ensures calls[t].candidate < |counts| && calls[t].round < counts[calls[t].candidate]
        ensures times[calls[t].candidate][calls[t].round] == elapsed(t) * 1000.0
      {
        assert Holds(events, calls[t].candidate, calls[t].round, t);
      }
      forall c, k | 0 <= c < |counts| && 0 <= k < counts[c]
        ensures Made(calls, c, k)
      {
        var t := events[c][k];
        assert calls[t].candidate == c && calls[t].round == k;
      }
    }

    /** Whether the final benchmark captures graphs of z calls. */
    predicate UsesGraphs(supportsGraph: bool, z: nat, s: Settings)
      requires z >= 1 && sets != []
      reads this
    {
      z >= s.minCalls && !requiresFlush && GraphsFit(|sets|, z, allocatedBytes, maxSets, maxBytes) && supportsGraph
    }

    /**
     The benchmark captures graphs exactly if these are long enough and supported, no
     flush is needed, and the next multiple of their length is a number of sets that
     the limits allow at the average size.
     */
    lemma UsesGraphsMeaning(supportsGraph: bool, z: nat, s: Settings, p: nat)
      requires z >= 1 && sets != [] && p % z == 0 && |sets| <= p < |sets| + z
      ensures UsesGraphs(supportsGraph, z, s) <==>
        && s.minCalls <= z && supportsGraph && !requiresFlush
        && p <= maxSets && p * allocatedBytes <= maxBytes * |sets|
    {
      PaddedMeaning(|sets|, z);
      OneMultiple(|sets|, z, p, Padded(|sets|, z));
      AverageTimes(p, allocatedBytes, |sets|, maxBytes);
    }

    /** The sets that pad the ring to whole graphs of z calls exceed its bytes. */
    ghost predicate PaddingExceeds(z: nat)
      requires z >= 1
      reads this
    {
      PaddingCount(z) >= 0 && allocatedBytes + SumSizes(size, made, PaddingCount(z)) > maxBytes
    }

    ghost function PaddingCount(z: nat): int
      requires z >= 1
      reads this
    {
      Padded(|sets|, z) - |sets|
    }

    /** All sets take the same bytes. */
    ghost predicate Uniform()
      reads this
    {
      UniformSize() && allocatedBytes == |sets| * size(0)
    }

    lemma UniformPaddingFits(supportsGraph: bool, z: nat, s: Settings)
      requires z >= 1 && sets != [] && UsesGraphs(supportsGraph, z, s) && Uniform()
      ensures !PaddingExceeds(z)
    {
      UniformFits(|sets|, z, size, made, maxSets, maxBytes);
    }

    /**
     Times a candidate over the whole ring. Graphs cannot change their inputs, so
     the ring is padded to whole graphs; with a working factory that fails exactly
     when the padding exceeds the bytes of the ring, hence never if all sets take
     the same bytes.
     */
    method FinalBenchmark(supportsGraph: bool, estimate: real, s: Settings) returns (r: Result<Report, Error>)
      requires Valid() && sets != [] && s.Valid()
      modifies this
      ensures Valid() && old(sets) <= sets && footprint == old(footprint)
      ensures r == Failure(ZeroEstimate) <==> estimate == 0.0
      ensures estimate != 0.0 ==>
        var z := CallsPerGraph(s, estimate);
        if !old(UsesGraphs(supportsGraph, z, s)) then
          sets == old(sets) && r.Success? && EventTrials(r.value, sets, old(cursor), elapsed, Trials(s, estimate))
        else
          && (r.Success? ==> |sets| == old(Padded(|sets|, z)))
          && (r.Success? ==> GraphTrials(r.value, sets, z, elapsed, GraphCount(s, z, estimate)))
          && (old(Working() && footprint == unit) ==> (r.Failure? <==> old(PaddingExceeds(z))))
          && (old(Working() && footprint == unit && Uniform()) ==> r.Success?)
    {
      if estimate == 0.0 {
        return Failure(ZeroEstimate);
      }
      var z := CallsPerGraph(s, estimate);
      if !UsesGraphs(supportsGraph, z, s) {
        var report := RunEvents(Trials(s, estimate), s.flushIterations);
        return Success(report);
      }
      ghost var slices := (|sets| + z - 1) / z;
      var padded := Pad(supportsGraph, z, s);
      if padded.Some? {
        return Failure(padded.value);
      }
      var report := RunGraphs(z, GraphCount(s, z, estimate), slices);
      return Success(report);
    }

    /** Pads the ring to whole graphs of z calls. */
    method Pad(supportsGraph: bool, z: nat, s: Settings) returns (r: Option<Error>)
      requires Valid() && sets != [] && z >= 1 && UsesGraphs(supportsGraph, z, s)
      modifies this`sets, this`pointers, this`allocatedBytes, this`footprint, this`made
      ensures Valid() && old(sets) <= sets && footprint == old(footprint) && r != Some(ZeroEstimate)
      ensures r.None? ==> |sets| == old(Padded(|sets|, z))
      ensures old(Working() && footprint == unit) ==> (r.Some? <==> old(PaddingExceeds(z)))
      ensures old(Working() && footprint == unit && Uniform()) ==> r.None?
    {
      if Uniform() {
        UniformPaddingFits(supportsGraph, z, s);
      }
      PaddedMeaning(|sets|, z);
      assert Padded(|sets|, z) <= maxSets;
      r := Ensure(Padded(|sets|, z));
    }

    method RunEvents(count: nat, flushIterations: nat) returns (report: Report)
      requires Valid() && sets != [] && count >= 1
      modifies this`cursor
      ensures EventTrials(report, sets, old(cursor), elapsed, count)
    {
      var times, calls, _ := Interleave([count], flushIterations);
      forall t | 0 <= t < |calls|
        ensures calls[t].candidate == 0 && calls[t].round < count
      {
      }
      SingleCandidateLength(calls, count);
      var least := Minimum(times[0]);
      report := Report(least, times[0], 0, [], seq(count, k requires 0 <= k < |calls| => [calls[k].inputs]));
    }

    method RunGraphs(z: nat, count: nat, ghost slices: nat) returns (report: Report)
      requires Valid() && sets != [] && z >= 1 && |sets| == slices * z && count >= 1
      ensures GraphTrials(report, sets, z, elapsed, count)
    {
      var graphs := SliceRing(z, slices);
      var trials, used := Replay(graphs, z, count);
      var least := Minimum(trials);
      report := Report(least, trials, z, graphs, used);
      GraphTrialsMade(report, sets, z, elapsed, count);
    }

    /** Cuts the ring into the inputs of one graph each. */
    method SliceRing(z: nat, ghost slices: nat) returns (graphs: seq<seq<Inputs>>)
      requires sets != [] && z >= 1 && |sets| == slices * z
      ensures Sliced(graphs, sets, z)
    {
      graphs := Sequences.Chunks(sets, z);
      FullSlices(graphs, sets, z, slices);
      assert graphs != [] by {
        assert graphs == [] ==> Sequences.Flatten(graphs) == [];
      }
    }

    /** Replays the graphs in turn, and times each call of a replay. */
    method Replay(graphs: seq<seq<Inputs>>, z: nat, count: nat) returns (trials: seq<real>, used: seq<seq<Inputs>>)
      requires graphs != [] && z >= 1
      ensures |trials| == |used| == count
      ensures forall j :: 0 <= j < count ==>
        used[j] == graphs[j % |graphs|] && trials[j] == PerCall(elapsed(j), z)
    {
      trials, used := [], [];
      for k := 0 to count
        invariant |trials| == |used| == k
        invariant forall j :: 0 <= j < k ==>
          used[j] == graphs[j % |graphs|] && trials[j] == PerCall(elapsed(j), z)
      {
        used := used + [graphs[k % |graphs|]];
        trials := trials + [PerCall(elapsed(k), z)];
      }
    }

    /** Every candidate that is due in a round runs once. */
    method Round(events: seq<seq<nat>>, calls: seq<Call>, counts: seq<nat>, round: nat, flushes: nat, ghost start: nat)
      returns (events': seq<seq<nat>>, calls': seq<Call>, flushes': nat)
      requires Valid() && sets != [] && Indexed(events, calls) && Reached(events, counts, round, 0)
      requires InTurn(calls, sets, start) && cursor == start + |calls|
      modifies this`cursor
      ensures Indexed(events', calls') && Reached(events', counts, round, |counts|)
      ensures InTurn(calls', sets, start) && cursor == start + |calls'|
      ensures |calls| <= |calls'| && flushes' == flushes + if requiresFlush then |calls'| - |calls| else 0
    {
      events', calls', flushes' := events, calls, flushes;
      for candidate := 0 to |counts|
        invariant Indexed(events', calls') && Reached(events', counts, round, candidate)
        invariant InTurn(calls', sets, start) && cursor == start + |calls'|
        invariant |calls| <= |calls'| && flushes' == flushes + if requiresFlush then |calls'| - |calls| else 0
      {
        if round < counts[candidate] {
          var args := Next();
          if requiresFlush {
            flushes' := flushes' + 1;
          }
          NextCall(events', calls', counts, round, candidate, args);
          events' := events'[candidate := events'[candidate] + [|calls'|]];
          calls' := calls' + [Call(round, candidate, args)];
        }
      }
    }

    function Timings(events: seq<seq<nat>>): (times: seq<seq<real>>)
      ensures |times| == |events|
      ensures forall c :: 0 <= c < |events| ==> |times[c]| == |events[c]|
      ensures forall c, k :: 0 <= c < |events| && 0 <= k < |events[c]| ==> times[c][k] == elapsed(events[c][k]) * 1000.0
    {
      seq(|events|, c requires 0 <= c < |events| =>
        seq(|events[c]|, k requires 0 <= k < |events[c]| => elapsed(events[c][k]) * 1000.0))
    }
  }

  /** With one candidate, the t-th call is its t-th round. */
  lemma {:induction false} SingleCandidate(calls: seq<Call>, count: nat, t: nat)
    requires forall u, v :: 0 <= u < v < |calls| ==> Precedes(calls[u], calls[v])
    requires forall u :: 0 <= u < |calls| ==> calls[u].candidate == 0 && calls[u].round < count
    requires forall k: nat :: k < count ==> Made(calls, 0, k)
    requires t < count
    ensures t < |calls| && calls[t].round == t
  {
    if t > 0 {
      SingleCandidate(calls, count, t - 1);
    }
    assert Made(calls, 0, t);
    var u :| 0 <= u < |calls| && calls[u].candidate == 0 && calls[u].round == t;
    if u < t {
      SingleCandidate(calls, count, u);
      assert false;
    }
    assert t < u ==> Precedes(calls[t], calls[u]);
    assert t > 0 ==> Precedes(calls[t - 1], calls[t]);
  }

  lemma SingleCandidateLength(calls: seq<Call>, count: nat)
    requires forall u, v :: 0 <= u < v < |calls| ==> Precedes(calls[u], calls[v])
    requires forall u :: 0 <= u < |calls| ==> calls[u].candidate == 0 && calls[u].round < count
    requires forall k: nat :: k < count ==> Made(calls, 0, k)
    ensures |calls| == count
    ensures forall t :: 0 <= t < count ==> calls[t].round == t
  {
    forall t: nat | t < count
      ensures t < |calls| && calls[t].round == t
    {
      SingleCandidate(calls, count, t);
    }
    if calls != [] {
      RoundsGrow(calls, |calls| - 1);
    }
    if count > 0 {
      SingleCandidate(calls, count, count - 1);
    }
  }

  lemma {:induction false} RoundsGrow(calls: seq<Call>, t: nat)
    requires forall u, v :: 0 <= u < v < |calls| ==> Precedes(calls[u], calls[v])
    requires forall u :: 0 <= u < |calls| ==> calls[u].candidate == 0
    requires t < |calls|
    ensures calls[t].round >= t
  {
    if t > 0 {
      RoundsGrow(calls, t - 1);
      assert Precedes(calls[t - 1], calls[t]);
    }
  }

  /** Microseconds of each of z calls that took so many milliseconds together. */
  function PerCall(elapsed: real, z: nat): (us: real)
    requires z >= 1
    ensures us * z as real == elapsed * 1000.0
  {
    elapsed * 1000.0 / z as real
  }

  /** Full slices of z sets make up the ring. */
  ghost predicate Sliced(graphs: seq<seq<Inputs>>, sets: seq<Inputs>, z: nat) {
    && Sequences.Flatten(graphs) == sets && |graphs| * z == |sets| && graphs != []
    && forall g :: 0 <= g < |graphs| ==> |graphs[g]| == z
  }

  lemma GraphTrialsMade(report: Report, sets: seq<Inputs>, z: nat, elapsed: nat -> real, count: nat)
    requires z >= 1 && Sliced(report.graphs, sets, z) && report.callsPerGraph == z
    requires |report.trialUs| == |report.used| == count && Smallest(report.runtimeUs, report.trialUs)
    requires forall j :: 0 <= j < count ==>
      report.used[j] == report.graphs[j % |report.graphs|] && report.trialUs[j] == PerCall(elapsed(j), z)
    ensures GraphTrials(report, sets, z, elapsed, count)
  {
    Shares(report.trialUs, elapsed, z);
  }

  lemma Shares(trials: seq<real>, elapsed: nat -> real, z: nat)
    requires z >= 1 && forall j :: 0 <= j < |trials| ==> trials[j] == PerCall(elapsed(j), z)
    ensures forall j :: 0 <= j < |trials| ==> trials[j] * z as real == elapsed(j) * 1000.0
  {
  }

  /** Trials that each call the candidate once, on the sets in turn from `cursor` on. */
  ghost predicate EventTrials(report: Report, sets: seq<Inputs>, cursor: nat, elapsed: nat -> real, count: nat)
    requires sets != []
  {
    && |report.trialUs| == |report.used| == count && Smallest(report.runtimeUs, report.trialUs)
    && report.callsPerGraph == 0 && report.graphs == []
    && forall k :: 0 <= k < count ==>
      report.used[k] == [sets[(cursor + k) % |sets|]] && report.trialUs[k] == elapsed(k) * 1000.0
  }

  /**
   Trials that each replay one graph of z calls, and count the microseconds of one of
   them; the graphs cut the ring into full slices and are cycled.
   */
  ghost predicate GraphTrials(report: Report, sets: seq<Inputs>, z: nat, elapsed: nat -> real, count: nat) {
    && z >= 1 && |report.trialUs| == |report.used| == count && Smallest(report.runtimeUs, report.trialUs)
    && report.callsPerGraph == z && Sliced(report.graphs, sets, z)
    && forall k :: 0 <= k < count ==>
      && report.used[k] == report.graphs[k % |report.graphs|]
      && report.trialUs[k] * z as real == elapsed(k) * 1000.0
  }

  ghost predicate Made(calls: seq<Call>, candidate: nat, round: nat) {
    exists t :: 0 <= t < |calls| && calls[t].candidate == candidate && calls[t].round == round
  }
}
