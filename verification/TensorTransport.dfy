// Transport of tensor arguments and results between two processes.
//
// A process is a memory of storages; a tensor is a view of one storage. Metadata
// names a storage by its group: its position among the distinct storages, in
// order of first appearance. Bytes travel per group, so aliases survive.

module TensorTransport {
  import opened Outcomes
  import opened Sequences

  type StorageId = nat
  type Bytes = seq<bv8>
  type Memory = map<StorageId, Bytes>

  datatype DType = Bool | UInt8 | Int8 | Int16 | Int32 | Int64 | Float16 | BFloat16 | Float32 | Float64 | Complex64
    | Complex128

  function ElementSize(d: DType): nat {
    match d
    case Bool | UInt8 | Int8 => 1
    case Int16 | Float16 | BFloat16 => 2
    case Int32 | Float32 => 4
    case Int64 | Float64 | Complex64 => 8
    case Complex128 => 16
  }

  /** The bits that a type names, or a byte. */
  lemma ElementBits(d: DType)
    ensures 8 * ElementSize(d) ==
      if d == Complex128 then 128 else if d in {Int64, Float64, Complex64} then 64
      else if d in {Int32, Float32} then 32 else if d in {Int16, Float16, BFloat16} then 16 else 8
  {
  }

  datatype View = View(dtype: DType, shape: seq<int>, stride: seq<int>, offset: int)
  datatype Tensor = Tensor(storage: StorageId, view: View)
  datatype Scalar = NoneValue | BoolValue(b: bool) | IntValue(i: int) | FloatValue(f: real) | StrValue(s: string)
  datatype Arg = TensorArg(tensor: Tensor) | ScalarArg(scalar: Scalar)

  datatype Spec = TensorSpec(view: View, group: nat) | ValueSpec(scalar: Scalar)

  /** Dictionary keys; only text and integers are supported. */
  datatype Key = StrKey(s: string) | IntKey(i: int) | OtherKey

  datatype Value =
    | TensorValue(tensor: Tensor)
    | ScalarValue(scalar: Scalar)
    | ListValue(items: seq<Value>)
    | TupleValue(items: seq<Value>)
    | DictValue(keys: seq<Key>, items: seq<Value>)
    | Unsupported

  datatype Node =
    | TensorNode(index: int)
    | ValueNode(scalar: Scalar)
    | ListNode(items: seq<Node>)
    | TupleNode(items: seq<Node>)
    | DictNode(keys: seq<Key>, items: seq<Node>)
    | BadNode

  datatype Payload = Payload(inputCount: int, specs: seq<Spec>, storages: map<nat, Bytes>, tree: Node)

  datatype Error = UnsupportedReturn | CountDiffers | MetadataDiffers | InvalidView | InvalidIndex | InvalidContainer
    | SizesDiffer

  // ------------------------------------------------------------------ views

  function Span(shape: seq<int>, stride: seq<int>): int
    requires |shape| == |stride|
  {
    if shape == [] then 0
    else (shape[0] - 1) * stride[0] + Span(shape[1..], stride[1..])
  }

  function Extent(v: View): int
    requires |v.shape| == |v.stride|
  {
    if 0 in v.shape then v.offset else v.offset + 1 + Span(v.shape, v.stride)
  }

  /** The bounds check on a view that arrived from another process. */
  predicate Accepted(v: View, bytes: nat) {
    && |v.shape| == |v.stride| && v.offset >= 0
    && (forall d :: d in v.shape ==> d >= 0) && (forall s :: s in v.stride ==> s >= 0)
    && Extent(v) * ElementSize(v.dtype) <= bytes
  }

  predicate MultiIndex(shape: seq<int>, index: seq<int>) {
    |index| == |shape| && forall k :: 0 <= k < |shape| ==> 0 <= index[k] < shape[k]
  }

  function Dot(index: seq<int>, stride: seq<int>): int
    requires |index| == |stride|
  {
    if index == [] then 0 else index[0] * stride[0] + Dot(index[1..], stride[1..])
  }

  /** The element that a multi-index addresses lies wholly inside the storage. */
  predicate Inside(v: View, index: seq<int>, bytes: nat)
    requires |index| == |v.stride|
  {
    var element := v.offset + Dot(index, v.stride);
    0 <= element && (element + 1) * ElementSize(v.dtype) <= bytes
  }

  lemma {:induction false} DotWithinSpan(shape: seq<int>, stride: seq<int>, index: seq<int>)
    requires |shape| == |stride| && MultiIndex(shape, index) && forall s :: s in stride ==> s >= 0
    ensures 0 <= Dot(index, stride) <= Span(shape, stride)
  {
    if shape != [] {
      assert stride[0] in stride;
      assert forall s :: s in stride[1..] ==> s in stride;
      DotWithinSpan(shape[1..], stride[1..], index[1..]);
      assert 0 <= index[0] * stride[0] <= (shape[0] - 1) * stride[0];
    }
  }

  lemma {:induction false} LastIndex(shape: seq<int>, stride: seq<int>) returns (index: seq<int>)
    requires |shape| == |stride| && forall d :: d in shape ==> d > 0
    ensures MultiIndex(shape, index) && Dot(index, stride) == Span(shape, stride)
  {
    if shape == [] {
      index := [];
    } else {
      assert shape[0] in shape;
      assert forall d :: d in shape[1..] ==> d in shape;
      var rest := LastIndex(shape[1..], stride[1..]);
      index := [shape[0] - 1] + rest;
      assert index[1..] == rest;
    }
  }

  /** An accepted view addresses only bytes of its storage; an empty view addresses none. */
  lemma AcceptedIsInside(v: View, bytes: nat, index: seq<int>)
    requires Accepted(v, bytes) && MultiIndex(v.shape, index)
    ensures Inside(v, index, bytes)
  {
    DotWithinSpan(v.shape, v.stride, index);
    var size := ElementSize(v.dtype);
    var element := v.offset + Dot(index, v.stride);
    if 0 !in v.shape {
      assert (element + 1) * size <= Extent(v) * size;
    }
  }

  /** What is accepted has matching dimensions, and nothing in it is negative. */
  lemma AcceptedForm(v: View, bytes: nat)
    requires Accepted(v, bytes)
    ensures |v.shape| == |v.stride| && v.offset >= 0
    ensures forall k :: 0 <= k < |v.shape| ==> v.shape[k] >= 0 && v.stride[k] >= 0
  {
    forall k | 0 <= k < |v.shape| ensures v.shape[k] >= 0 && v.stride[k] >= 0 {
      assert v.shape[k] in v.shape && v.stride[k] in v.stride;
    }
  }

  ghost predicate AllInside(v: View, bytes: nat)
    requires |v.shape| == |v.stride|
  {
    forall index :: MultiIndex(v.shape, index) ==> Inside(v, index, bytes)
  }

  /**
   Whatever the shape, the check passes if and only if every addressed element is
   inside, exactly if the view has elements or its offset is within the storage.
   */
  lemma AcceptedIffInside(v: View, bytes: nat)
    requires |v.shape| == |v.stride| && v.offset >= 0
    requires (forall d :: d in v.shape ==> d >= 0) && (forall s :: s in v.stride ==> s >= 0)
    ensures (0 !in v.shape || v.offset * ElementSize(v.dtype) <= bytes) <==>
      (Accepted(v, bytes) <==> AllInside(v, bytes))
  {
    if Accepted(v, bytes) {
      forall index | MultiIndex(v.shape, index) ensures Inside(v, index, bytes) {
        AcceptedIsInside(v, bytes, index);
      }
    }
    if 0 in v.shape {
      EmptyInside(v, bytes);
    } else {
      var last := LastIndex(v.shape, v.stride);
      assert Inside(v, last, bytes) ==> Accepted(v, bytes);
    }
  }

  /** A view with an empty dimension addresses nothing. */
  lemma EmptyInside(v: View, bytes: nat)
    requires |v.shape| == |v.stride| && 0 in v.shape
    ensures AllInside(v, bytes)
  {
    var k :| 0 <= k < |v.shape| && v.shape[k] == 0;
    forall index | |index| == |v.shape| ensures !MultiIndex(v.shape, index) {
      assert !(0 <= index[k] < v.shape[k]);
    }
  }

  /** Rows from the fourth on and columns from the third on of three rows of four: nothing, and refused. */
  lemma EmptyViewRefused()
    ensures var v := View(Float32, [0, 2], [4, 1], 14); AllInside(v, 48) && !Accepted(v, 48)
  {
    var v := View(Float32, [0, 2], [4, 1], 14);
    assert v.shape[0] == 0;
    EmptyInside(v, 48);
    assert Extent(v) == 14;
  }

  // ---------------------------------------------------------------- capture

  /** The distinct storages of the arguments, in order of first appearance. */
  function Groups(args: seq<Arg>): (g: seq<StorageId>)
  {
    if args == [] then []
    else
      var rest := Groups(args[..|args| - 1]);
      match args[|args| - 1]
      case ScalarArg(_) => rest
      case TensorArg(t) => if t.storage in rest then rest else rest + [t.storage]
  }

  function IndexOf(s: seq<StorageId>, x: StorageId): (i: nat)
    requires x in s
    ensures i < |s| && s[i] == x
  {
    if s[0] == x then 0 else 1 + IndexOf(s[1..], x)
  }

  lemma {:induction false} GroupsMeaning(args: seq<Arg>)
    ensures Distinct(Groups(args))
    ensures forall a :: a in args && a.TensorArg? ==> a.tensor.storage in Groups(args)
    ensures forall s :: s in Groups(args) ==> exists a :: a in args && a.TensorArg? && a.tensor.storage == s
  {
    if args != [] {
      var init, last := args[..|args| - 1], args[|args| - 1];
      GroupsMeaning(init);
      assert args == init + [last];
      assert last in args;
      forall s | s in Groups(args) ensures exists a :: a in args && a.TensorArg? && a.tensor.storage == s {
        if s in Groups(init) {
          var a :| a in init && a.TensorArg? && a.tensor.storage == s;
          assert a in args;
        } else {
          assert last.tensor.storage == s;
        }
      }
    }
  }

  function SpecOf(a: Arg, groups: seq<StorageId>): Spec
    requires a.TensorArg? ==> a.tensor.storage in groups
  {
    match a
    case ScalarArg(s) => ValueSpec(s)
    case TensorArg(t) => TensorSpec(t.view, IndexOf(groups, t.storage))
  }

  /** The metadata of an argument list. */
  function Capture(args: seq<Arg>): (specs: seq<Spec>)
    ensures |specs| == |args|
  {
    GroupsMeaning(args);
    seq(|args|, i requires 0 <= i < |args| => assert args[i] in args; SpecOf(args[i], Groups(args)))
  }

  lemma {:induction false} GroupsPrefix(args: seq<Arg>, more: seq<Arg>)
    ensures Groups(args) <= Groups(args + more)
  {
    if more == [] {
      assert args + more == args;
    } else {
      var init := more[..|more| - 1];
      GroupsPrefix(args, init);
      assert (args + more)[..|args + more| - 1] == args + init;
    }
  }

  lemma IndexUnique(s: seq<StorageId>, i: nat)
    requires Distinct(s) && i < |s|
    ensures IndexOf(s, s[i]) == i
  {
  }

  lemma CapturePrefix(args: seq<Arg>, more: seq<Arg>)
    ensures Capture(args + more)[..|args|] == Capture(args)
  {
    GroupsMeaning(args);
    GroupsMeaning(args + more);
    GroupsPrefix(args, more);
    forall i | 0 <= i < |args| ensures Capture(args + more)[i] == Capture(args)[i] {
      assert (args + more)[i] == args[i] && args[i] in args;
      if args[i].TensorArg? {
        var g := IndexOf(Groups(args), args[i].tensor.storage);
        IndexUnique(Groups(args + more), g);
      }
    }
  }

  /** Equal metadata means: equal kinds, views and scalars, and the same aliases. */
  lemma CaptureAliases(args: seq<Arg>, i: nat, j: nat)
    requires i < |args| && j < |args| && args[i].TensorArg? && args[j].TensorArg?
    ensures Capture(args)[i].TensorSpec? && Capture(args)[j].TensorSpec?
    ensures Capture(args)[i].group == Capture(args)[j].group <==> args[i].tensor.storage == args[j].tensor.storage
  {
    GroupsMeaning(args);
    assert args[i] in args && args[j] in args;
  }

  // --------------------------------------------------------------- snapshot

  function TensorArgs(tensors: seq<Tensor>): (args: seq<Arg>)
    ensures |args| == |tensors| && forall i :: 0 <= i < |args| ==> args[i] == TensorArg(tensors[i])
  {
    seq(|tensors|, i requires 0 <= i < |tensors| => TensorArg(tensors[i]))
  }

  ghost predicate InMemory(args: seq<Arg>, memory: Memory) {
    forall a :: a in args && a.TensorArg? ==> a.tensor.storage in memory
  }

  /** The complete bytes of every storage, by group. */
  function Storages(args: seq<Arg>, memory: Memory): (m: map<nat, Bytes>)
    requires InMemory(args, memory)
  {
    GroupsMeaning(args);
    map g: nat | g < |Groups(args)| :: assert Groups(args)[g] in Groups(args); memory[Groups(args)[g]]
  }

  /** The tree of a returned value; its tensors are numbered from `next` on, in depth-first order. */
  function Encode(v: Value, next: nat): Result<(Node, seq<Tensor>), Error> {
    match v
    case TensorValue(t) => Success((TensorNode(next), [t]))
    case ScalarValue(s) => Success((ValueNode(s), []))
    case Unsupported => Failure(UnsupportedReturn)
    case ListValue(items) =>
      var r := EncodeAll(items, next);
      if r.Failure? then Failure(r.error) else Success((ListNode(r.value.0), r.value.1))
    case TupleValue(items) =>
      var r := EncodeAll(items, next);
      if r.Failure? then Failure(r.error) else Success((TupleNode(r.value.0), r.value.1))
    case DictValue(keys, items) =>
      if OtherKey in keys then Failure(UnsupportedReturn)
      else
        var r := EncodeAll(items, next);
        if r.Failure? then Failure(r.error) else Success((DictNode(keys, r.value.0), r.value.1))
  }

  function EncodeAll(items: seq<Value>, next: nat): Result<(seq<Node>, seq<Tensor>), Error> {
    if items == [] then Success(([], []))
    else
      var first := Encode(items[0], next);
      if first.Failure? then Failure(first.error)
      else
        var rest := EncodeAll(items[1..], next + |first.value.1|);
        if rest.Failure? then Failure(rest.error)
        else Success(([first.value.0] + rest.value.0, first.value.1 + rest.value.1))
  }

  /** A value is a part of itself and of everything that holds it. */
  ghost predicate PartOf(x: Value, v: Value) {
    x == v ||
    match v
    case ListValue(items) => exists i :: 0 <= i < |items| && PartOf(x, items[i])
    case TupleValue(items) => exists i :: 0 <= i < |items| && PartOf(x, items[i])
    case DictValue(_, items) => exists i :: 0 <= i < |items| && PartOf(x, items[i])
    case _ => false
  }

  /** What cannot be transported: an object of another kind, or a dictionary with keys that are no texts or integers. */
  predicate Foreign(x: Value) {
    x.Unsupported? || (x.DictValue? && OtherKey in x.keys)
  }

  /** Exactly the values with no foreign part can be returned. */
  lemma {:induction false} EncodesExactly(v: Value, next: nat)
    ensures Encode(v, next).Success? <==> forall x :: PartOf(x, v) ==> !Foreign(x)
    decreases v
  {
    assert PartOf(v, v);
    match v
    case ListValue(items) => EncodesAllExactly(items, next);
    case TupleValue(items) => EncodesAllExactly(items, next);
    case DictValue(keys, items) => EncodesAllExactly(items, next);
    case _ =>
  }

  lemma {:induction false} EncodesAllExactly(items: seq<Value>, next: nat)
    ensures EncodeAll(items, next).Success? <==>
      forall x, i :: 0 <= i < |items| && PartOf(x, items[i]) ==> !Foreign(x)
    decreases items
  {
    if items != [] {
      var first, rest := Encode(items[0], next), items[1..];
      EncodesExactly(items[0], next);
      if first.Success? {
        EncodesAllExactly(rest, next + |first.value.1|);
        assert forall i :: 0 <= i < |rest| ==> rest[i] == items[i + 1];
        assert forall i :: 1 <= i < |items| ==> items[i] == rest[i - 1];
      }
    }
  }

  ghost predicate LeavesInMemory(leaves: seq<Tensor>, memory: Memory) {
    forall t :: t in leaves ==> t.storage in memory
  }

  function SnapshotResult(v: Value, args: seq<Arg>, memory: Memory): Result<Payload, Error>
    requires InMemory(args, memory)
    requires Encode(v, |args|).Success? ==> LeavesInMemory(Encode(v, |args|).value.1, memory)
  {
    var encoded := Encode(v, |args|);
    if encoded.Failure? then Failure(encoded.error)
    else
      var all := args + TensorArgs(encoded.value.1);
      Success(Payload(|args|, Capture(all), Storages(all, memory), encoded.value.0))
  }

  // ------------------------------------------------------------------ apply

  /** The local storage that stands for each group: the caller's own, or a new one. */
  function BufferOf(group: nat, inputs: seq<StorageId>, base: nat): StorageId {
    if group < |inputs| then inputs[group] else base + group
  }

  predicate SpecAccepted(s: Spec, storages: map<nat, Bytes>) {
    s.TensorSpec? ==> s.group in storages && Accepted(s.view, |storages[s.group]|)
  }

  function FirstEqual(specs: seq<Spec>, s: Spec): (r: Option<nat>)
    ensures r.Some? ==> r.value < |specs| && specs[r.value] == s
    ensures r.None? <==> s !in specs
  {
    if specs == [] then None
    else if specs[0] == s then Some(0)
    else
      var rest := FirstEqual(specs[1..], s);
      if rest.None? then None else Some(rest.value + 1)
  }

  /** What the decoder needs besides the tree. */
  datatype Context = Context(args: seq<Arg>, original: seq<Spec>, specs: seq<Spec>, inputs: seq<StorageId>, base: nat)

  /** A returned tensor: the caller's own argument if its metadata is the same, else a view of a buffer. */
  function DecodeTensor(index: int, c: Context): Result<Value, Error>
    requires |c.args| == |c.original|
  {
    if !(|c.args| <= index < |c.specs|) then Failure(InvalidIndex)
    else
      var spec := c.specs[index];
      var same := FirstEqual(c.original, spec);
      if same.Some? then
        match c.args[same.value]
        case TensorArg(t) => Success(TensorValue(t))
        case ScalarArg(s) => Success(ScalarValue(s))
      else if spec.ValueSpec? then Failure(InvalidIndex)
      else Success(TensorValue(Tensor(BufferOf(spec.group, c.inputs, c.base), spec.view)))
  }

  function Decode(n: Node, c: Context): Result<Value, Error>
    requires |c.args| == |c.original|
  {
    match n
    case ValueNode(s) => Success(ScalarValue(s))
    case TensorNode(index) => DecodeTensor(index, c)
    case BadNode => Failure(InvalidContainer)
    case ListNode(items) =>
      var r := DecodeAll(items, c);
      if r.Failure? then Failure(r.error) else Success(ListValue(r.value))
    case TupleNode(items) =>
      var r := DecodeAll(items, c);
      if r.Failure? then Failure(r.error) else Success(TupleValue(r.value))
    case DictNode(keys, items) =>
      var r := DecodeAll(items, c);
      if r.Failure? then Failure(r.error) else Success(DictValue(keys, r.value))
  }

  function DecodeAll(items: seq<Node>, c: Context): Result<seq<Value>, Error>
    requires |c.args| == |c.original|
  {
    if items == [] then Success([])
    else
      var first := Decode(items[0], c);
      if first.Failure? then Failure(first.error)
      else
        var rest := DecodeAll(items[1..], c);
        if rest.Failure? then Failure(rest.error) else Success([first.value] + rest.value)
  }

  /** What the writes leave in memory: the caller's storages overwritten, and new buffers for the other groups. */
  ghost function Written(memory: Memory, storages: map<nat, Bytes>, inputs: seq<StorageId>, base: nat): Memory {
    Overwrite(memory, storages, inputs) + NewBuffers(storages, |inputs|, base)
  }

  function Overwrite(memory: Memory, storages: map<nat, Bytes>, inputs: seq<StorageId>): Memory {
    map s | s in memory ::
      if s in inputs && IndexOf(inputs, s) in storages then storages[IndexOf(inputs, s)] else memory[s]
  }

  function NewBuffers(storages: map<nat, Bytes>, from: nat, base: nat): Memory {
    var ids := set g | g in storages && g >= from :: base + g;
    map s | s in ids :: storages[s - base]
  }

  ghost predicate SizesMatch(memory: Memory, storages: map<nat, Bytes>, inputs: seq<StorageId>) {
    forall g: nat :: g < |inputs| ==> inputs[g] in memory && g in storages && |storages[g]| == |memory[inputs[g]]|
  }

  /** The whole of apply_result: every check comes before the first write. */
  ghost function Apply(memory: Memory, base: nat, p: Payload, args: seq<Arg>): Result<(Value, Memory), Error> {
    var original := Capture(args);
    var inputs := Groups(args);
    if p.inputCount != |args| then Failure(CountDiffers)
    else if |p.specs| < |args| || p.specs[..|args|] != original then Failure(MetadataDiffers)
    else if exists s :: s in p.specs && !SpecAccepted(s, p.storages) then Failure(InvalidView)
    else
      var decoded := Decode(p.tree, Context(args, original, p.specs, inputs, base));
      if decoded.Failure? then Failure(decoded.error)
      else if !SizesMatch(memory, p.storages, inputs) then Failure(SizesDiffer)
      else Success((decoded.value, Written(memory, p.storages, inputs, base)))
  }

  // ------------------------------------------------------------- round trip

  /** Where each remote storage is found after the result was applied. */
  datatype Placement = Placement(groups: seq<StorageId>, inputs: seq<StorageId>, base: nat) {
    function At(s: StorageId): StorageId {
      if s in groups then BufferOf(IndexOf(groups, s), inputs, base) else s
    }
  }

  /** `local` is the tree `remote`, with every tensor moved to the storage that stands for its own. */
  ghost predicate SameTree(remote: Value, local: Value, place: Placement) {
    match remote
    case TensorValue(t) => local == TensorValue(Tensor(place.At(t.storage), t.view))
    case ScalarValue(s) => local == remote
    case ListValue(items) => local.ListValue? && SameTrees(items, local.items, place)
    case TupleValue(items) => local.TupleValue? && SameTrees(items, local.items, place)
    case DictValue(keys, items) => local.DictValue? && local.keys == keys && SameTrees(items, local.items, place)
    case Unsupported => false
  }

  ghost predicate SameTrees(remote: seq<Value>, local: seq<Value>, place: Placement) {
    |local| == |remote| &&
    (remote == [] || (SameTree(remote[0], local[0], place) && SameTrees(remote[1..], local[1..], place)))
  }

  /** The context in which a payload built from `all` is decoded. */
  ghost predicate Decodes(c: Context, all: seq<Arg>, place: Placement) {
    && |c.args| == |c.original| <= |c.specs| == |all|
    && forall i: nat :: |c.args| <= i < |all| ==>
         all[i].TensorArg? && DecodeTensor(i, c) ==
           Success(TensorValue(Tensor(place.At(all[i].tensor.storage), all[i].tensor.view)))
  }

  /** The tensors of `leaves` are the arguments from position `next` on. */
  ghost predicate Window(all: seq<Arg>, next: nat, leaves: seq<Tensor>) {
    && next + |leaves| <= |all|
    && forall k :: 0 <= k < |leaves| ==> all[next + k] == TensorArg(leaves[k])
  }

  lemma LeavesWindow(remoteArgs: seq<Arg>, leaves: seq<Tensor>)
    ensures Window(remoteArgs + TensorArgs(leaves), |remoteArgs|, leaves)
  {
  }

  lemma {:induction false} DecodeEncode(v: Value, next: nat, c: Context, all: seq<Arg>, place: Placement)
    requires Encode(v, next).Success? && Decodes(c, all, place) && |c.args| <= next
    requires Window(all, next, Encode(v, next).value.1)
    ensures var local := Decode(Encode(v, next).value.0, c); local.Success? && SameTree(v, local.value, place)
    decreases v, 0
  {
    match v
    case TensorValue(t) =>
      assert Encode(v, next).value.1[0] == t;
      assert all[next + 0] == TensorArg(t);
    case ScalarValue(_) =>
    case ListValue(items) => DecodeEncodeAll(items, next, c, all, place);
    case TupleValue(items) => DecodeEncodeAll(items, next, c, all, place);
    case DictValue(_, items) => DecodeEncodeAll(items, next, c, all, place);
  }

  lemma {:induction false} DecodeEncodeAll(items: seq<Value>, next: nat, c: Context, all: seq<Arg>, place: Placement)
    requires EncodeAll(items, next).Success? && Decodes(c, all, place) && |c.args| <= next
    requires Window(all, next, EncodeAll(items, next).value.1)
    ensures var local := DecodeAll(EncodeAll(items, next).value.0, c);
      local.Success? &&
      SameTrees(items, local.value, place)
    decreases items, 1
  {
    if items != [] {
      var first := Encode(items[0], next).value;
      var rest := EncodeAll(items[1..], next + |first.1|).value;
      var leaves := first.1 + rest.1;
      assert EncodeAll(items, next).value == ([first.0] + rest.0, leaves);
      forall k | 0 <= k < |first.1| ensures all[next + k] == TensorArg(first.1[k]) {
        assert leaves[k] == first.1[k];
      }
      forall k | 0 <= k < |rest.1| ensures all[next + |first.1| + k] == TensorArg(rest.1[k]) {
        assert leaves[|first.1| + k] == rest.1[k];
        assert all[next + (|first.1| + k)] == TensorArg(leaves[|first.1| + k]);
      }
      DecodeEncode(items[0], next, c, all, place);
      DecodeEncodeAll(items[1..], next + |first.1|, c, all, place);
      assert ([first.0] + rest.0)[1..] == rest.0;
    }
  }

  lemma {:induction false} SameGroupCount(a: seq<Arg>, b: seq<Arg>)
    requires Capture(a) == Capture(b)
    ensures |Groups(a)| == |Groups(b)|
  {
    assert |a| == |Capture(a)| == |b|;
    if a != [] {
      var n := |a| - 1;
      assert a == a[..n] + [a[n]] && b == b[..n] + [b[n]];
      CapturePrefix(a[..n], [a[n]]);
      CapturePrefix(b[..n], [b[n]]);
      SameGroupCount(a[..n], b[..n]);
      assert Capture(a)[n] == Capture(b)[n];
      LastIsNew(a);
      LastIsNew(b);
    }
  }

  /** The last argument brings a new storage just when its group number is the number of groups before it. */
  lemma LastIsNew(a: seq<Arg>)
    requires a != []
    ensures var n := |a| - 1; var spec := Capture(a)[n];
      |Groups(a)| == |Groups(a[..n])| + if spec.TensorSpec? && spec.group == |Groups(a[..n])| then 1 else 0
  {
    var n := |a| - 1;
    GroupsMeaning(a);
    GroupsPrefix(a[..n], [a[n]]);
    assert a == a[..n] + [a[n]] && a[n] in a;
    if a[n].TensorArg? && a[n].tensor.storage in Groups(a[..n]) {
      IndexUnique(Groups(a), IndexOf(Groups(a[..n]), a[n].tensor.storage));
    }
  }

  /** Corresponding arguments stand for corresponding groups. */
  lemma ArgsCorrespond(args: seq<Arg>, remoteArgs: seq<Arg>, leaves: seq<Tensor>, i: nat) returns (g: nat)
    requires Capture(remoteArgs) == Capture(args) && i < |args| && args[i].TensorArg?
    ensures |remoteArgs| == |args| && remoteArgs[i].TensorArg? && remoteArgs[i].tensor.view == args[i].tensor.view
    ensures g < |Groups(args)| <= |Groups(remoteArgs + TensorArgs(leaves))|
    ensures args[i].tensor.storage == Groups(args)[g]
    ensures remoteArgs[i].tensor.storage == Groups(remoteArgs + TensorArgs(leaves))[g]
  {
    var all := remoteArgs + TensorArgs(leaves);
    SameGroupCount(remoteArgs, args);
    GroupsMeaning(args);
    GroupsMeaning(remoteArgs);
    GroupsPrefix(remoteArgs, TensorArgs(leaves));
    assert |remoteArgs| == |Capture(remoteArgs)| == |args|;
    assert Capture(remoteArgs)[i] == Capture(args)[i];
    assert args[i] in args && remoteArgs[i] in remoteArgs;
    g := IndexOf(Groups(args), args[i].tensor.storage);
  }

  lemma GroupOwner(args: seq<Arg>, g: nat) returns (i: nat)
    requires g < |Groups(args)|
    ensures i < |args| && args[i].TensorArg? && args[i].tensor.storage == Groups(args)[g]
  {
    GroupsMeaning(args);
    assert Groups(args)[g] in Groups(args);
    var a :| a in args && a.TensorArg? && a.tensor.storage == Groups(args)[g];
    i :| 0 <= i < |args| && args[i] == a;
  }

  /** The remote process, at the end of a run whose arguments were clones of the caller's. */
  ghost predicate RemoteRun(args: seq<Arg>, memory: Memory, remoteArgs: seq<Arg>, remote: Memory) {
    && InMemory(args, memory) && InMemory(remoteArgs, remote)
    && Capture(remoteArgs) == Capture(args)
    && forall i: nat :: i < |args| && args[i].TensorArg? && i < |remoteArgs| && remoteArgs[i].TensorArg? ==>
         |remote[remoteArgs[i].tensor.storage]| == |memory[args[i].tensor.storage]|
  }

  ghost predicate AllAccepted(all: seq<Arg>, memory: Memory) {
    forall a :: a in all && a.TensorArg? ==>
      a.tensor.storage in memory && Accepted(a.tensor.view, |memory[a.tensor.storage]|)
  }

  /** A returned tensor is decoded to the argument with the same metadata, or to a view of its group's buffer. */
  lemma TensorDecodes(args: seq<Arg>, all: seq<Arg>, base: nat, i: nat)
    requires |args| <= i < |all| && all[i].TensorArg?
    ensures DecodeTensor(i, Context(args, Capture(args), Capture(all), Groups(args), base)) ==
      Success(TensorValue(Tensor(Placement(Groups(all), Groups(args), base).At(all[i].tensor.storage),
                                 all[i].tensor.view)))
  {
    var spec := Capture(all)[i];
    var same := FirstEqual(Capture(args), spec);
    GroupsMeaning(all);
    assert all[i] in all;
    if same.Some? {
      GroupsMeaning(args);
      assert args[same.value] in args;
    }
  }

  lemma PayloadDecodes(args: seq<Arg>, remoteArgs: seq<Arg>, leaves: seq<Tensor>, base: nat)
    requires Capture(remoteArgs) == Capture(args)
    ensures var all := remoteArgs + TensorArgs(leaves);
      Decodes(Context(args, Capture(args), Capture(all), Groups(args), base), all, Placement(Groups(all),
                                                                                             Groups(args), base))
  {
    var all := remoteArgs + TensorArgs(leaves);
    assert |args| == |Capture(args)| == |remoteArgs|;
    forall i: nat | |args| <= i < |all|
      ensures all[i].TensorArg?
      ensures DecodeTensor(i, Context(args, Capture(args), Capture(all), Groups(args), base)) ==
        Success(TensorValue(Tensor(Placement(Groups(all), Groups(args), base).At(all[i].tensor.storage),
                                   all[i].tensor.view)))
    {
      assert all[i] == TensorArgs(leaves)[i - |args|];
      TensorDecodes(args, all, base, i);
    }
  }

  lemma PayloadSizes(args: seq<Arg>, memory: Memory, remoteArgs: seq<Arg>, remote: Memory, leaves: seq<Tensor>)
    requires RemoteRun(args, memory, remoteArgs, remote) && LeavesInMemory(leaves, remote)
    ensures InMemory(remoteArgs + TensorArgs(leaves), remote)
    ensures SizesMatch(memory, Storages(remoteArgs + TensorArgs(leaves), remote), Groups(args))
  {
    var all := remoteArgs + TensorArgs(leaves);
    AllInMemory(remoteArgs, leaves, remote);
    GroupsMeaning(args);
    forall g: nat | g < |Groups(args)|
      ensures Groups(args)[g] in memory && g in Storages(all, remote)
      ensures |Storages(all, remote)[g]| == |memory[Groups(args)[g]]|
    {
      var i := GroupOwner(args, g);
      var h := ArgsCorrespond(args, remoteArgs, leaves, i);
      assert g == h;
      assert args[i] in args;
    }
  }

  lemma AllInMemory(remoteArgs: seq<Arg>, leaves: seq<Tensor>, remote: Memory)
    requires InMemory(remoteArgs, remote) && LeavesInMemory(leaves, remote)
    ensures InMemory(remoteArgs + TensorArgs(leaves), remote)
  {
    forall a | a in TensorArgs(leaves) ensures a.TensorArg? && a.tensor in leaves {
      var i :| 0 <= i < |TensorArgs(leaves)| && TensorArgs(leaves)[i] == a;
    }
  }

  /** The payload's views pass the receiver's check exactly when they are accepted for the remote storages. */
  lemma PayloadAccepted(all: seq<Arg>, remote: Memory)
    requires InMemory(all, remote)
    ensures (forall s :: s in Capture(all) ==> SpecAccepted(s, Storages(all, remote))) <==> AllAccepted(all, remote)
  {
    GroupsMeaning(all);
    var specs, storages := Capture(all), Storages(all, remote);
    forall i: nat | i < |all|
      ensures all[i] in all && SpecAccepted(specs[i], storages) <==>
        (all[i].TensorArg? ==> Accepted(all[i].tensor.view, |remote[all[i].tensor.storage]|))
    {
      assert all[i] in all;
    }
    forall i: nat | i < |all| ensures specs[i] in specs && all[i] in all {
    }
  }

  /** The caller's own tensors stand for the clones that were made of them. */
  ghost predicate ArgsPlaced(args: seq<Arg>, remoteArgs: seq<Arg>, place: Placement) {
    forall i: nat :: i < |args| && i < |remoteArgs| && args[i].TensorArg? && remoteArgs[i].TensorArg? ==>
      place.At(remoteArgs[i].tensor.storage) == args[i].tensor.storage
  }

  /** Distinct storages stay distinct, each holds the remote bytes, and no other storage of the caller changed. */
  ghost predicate Placed(place: Placement, remote: Memory, memory: Memory, after: Memory) {
    && (forall s, t :: s in place.groups && t in place.groups && place.At(s) == place.At(t) ==> s == t)
    && (forall s :: s in place.groups ==> s in remote && place.At(s) in after && after[place.At(s)] == remote[s])
    && (forall s :: s in memory && s !in place.inputs ==> s in after && after[s] == memory[s])
  }

  lemma PlaceInjective(groups: seq<StorageId>, inputs: seq<StorageId>, base: nat, s: StorageId, t: StorageId)
    requires Distinct(inputs) && forall x :: x in inputs ==> x < base
    requires s in groups && t in groups
    requires Placement(groups, inputs, base).At(s) == Placement(groups, inputs, base).At(t)
    ensures s == t
  {
    var i, j := IndexOf(groups, s), IndexOf(groups, t);
    assert i < |inputs| ==> inputs[i] in inputs;
    assert j < |inputs| ==> inputs[j] in inputs;
  }

  lemma WrittenInput(memory: Memory, storages: map<nat, Bytes>, inputs: seq<StorageId>, base: nat, g: nat)
    requires Distinct(inputs) && g < |inputs| && g in storages && inputs[g] in memory && inputs[g] < base
    ensures inputs[g] in Written(memory, storages, inputs, base)
    ensures Written(memory, storages, inputs, base)[inputs[g]] == storages[g]
  {
    IndexUnique(inputs, g);
    assert inputs[g] !in NewBuffers(storages, |inputs|, base);
  }

  lemma WrittenNew(memory: Memory, storages: map<nat, Bytes>, inputs: seq<StorageId>, base: nat, g: nat)
    requires g >= |inputs| && g in storages
    ensures base + g in Written(memory, storages, inputs, base)
    ensures Written(memory, storages, inputs, base)[base + g] == storages[g]
  {
    var ids := set h | h in storages && h >= |inputs| :: base + h;
    assert base + g in ids;
    assert base + g in NewBuffers(storages, |inputs|, base);
  }

  /** The storages of a payload, group by group. */
  ghost predicate Carries(storages: map<nat, Bytes>, groups: seq<StorageId>, remote: Memory) {
    forall g: nat :: g < |groups| ==> groups[g] in remote && g in storages && storages[g] == remote[groups[g]]
  }

  lemma StoragesCarry(all: seq<Arg>, remote: Memory)
    requires InMemory(all, remote)
    ensures Carries(Storages(all, remote), Groups(all), remote)
  {
    GroupsMeaning(all);
    forall g: nat | g < |Groups(all)| ensures Groups(all)[g] in remote {
      assert Groups(all)[g] in Groups(all);
    }
  }

  lemma PlaceHolds(memory: Memory, base: nat, inputs: seq<StorageId>, groups: seq<StorageId>, remote: Memory,
                   storages: map<nat, Bytes>, s: StorageId)
    requires (forall x :: x in memory ==> x < base) && Distinct(inputs)
    requires Carries(storages, groups, remote) && SizesMatch(memory, storages, inputs) && s in groups
    ensures s in remote && Placement(groups, inputs, base).At(s) in Written(memory, storages, inputs, base)
    ensures Written(memory, storages, inputs, base)[Placement(groups, inputs, base).At(s)] == remote[s]
  {
    var g := IndexOf(groups, s);
    if g < |inputs| {
      WrittenInput(memory, storages, inputs, base, g);
    } else {
      WrittenNew(memory, storages, inputs, base, g);
    }
  }

  /** A payload that passes every other check is applied exactly if its sizes match. */
  lemma ApplyDecides(memory: Memory, base: nat, p: Payload, args: seq<Arg>)
    requires p.inputCount == |args| <= |p.specs| && p.specs[..|args|] == Capture(args)
    requires forall s :: s in p.specs ==> SpecAccepted(s, p.storages)
    requires Decode(p.tree, Context(args, Capture(args), p.specs, Groups(args), base)).Success?
    ensures Apply(memory, base, p, args) ==
      if SizesMatch(memory, p.storages, Groups(args)) then
        Success((Decode(p.tree, Context(args, Capture(args), p.specs, Groups(args), base)).value,
                 Written(memory, p.storages, Groups(args), base)))
      else Failure(SizesDiffer)
  {
  }

  /** A payload whose views are all accepted is applied, and gives back the same tree. */
  lemma RoundTripTree(memory: Memory, base: nat, args: seq<Arg>, remoteArgs: seq<Arg>, remote: Memory, v: Value)
    requires RemoteRun(args, memory, remoteArgs, remote)
    requires Encode(v, |args|).Success? && LeavesInMemory(Encode(v, |args|).value.1, remote)
    requires AllAccepted(remoteArgs + TensorArgs(Encode(v, |args|).value.1), remote)
    ensures |remoteArgs| == |args|
    ensures var all := remoteArgs + TensorArgs(Encode(v, |args|).value.1);
      var applied := Apply(memory, base, SnapshotResult(v, remoteArgs, remote).value, args);
      && InMemory(all, remote)
      && applied.Success? && applied.value.1 == Written(memory, Storages(all, remote), Groups(args), base)
      && SameTree(v, applied.value.0, Placement(Groups(all), Groups(args), base))
  {
    assert |remoteArgs| == |Capture(remoteArgs)| == |args|;
    var leaves := Encode(v, |args|).value.1;
    var all := remoteArgs + TensorArgs(leaves);
    CapturePrefix(remoteArgs, TensorArgs(leaves));
    PayloadSizes(args, memory, remoteArgs, remote, leaves);
    PayloadAccepted(all, remote);
    PayloadDecodes(args, remoteArgs, leaves, base);
    LeavesWindow(remoteArgs, leaves);
    DecodeEncode(v, |args|, Context(args, Capture(args), Capture(all), Groups(args), base), all,
                 Placement(Groups(all), Groups(args), base));
    ApplyDecides(memory, base, SnapshotResult(v, remoteArgs, remote).value, args);
  }

  /**
   Round trip with aliasing. After a run on clones of the arguments, which may have
   written any bytes and returned any supported containers, the caller rebuilds the
   same tree, tensors share storage exactly when they did remotely, and every storage,
   the caller's own included, holds the remote bytes.
   */
  lemma RoundTrip(memory: Memory, base: nat, args: seq<Arg>, remoteArgs: seq<Arg>, remote: Memory, v: Value)
    requires (forall s :: s in memory ==> s < base) && RemoteRun(args, memory, remoteArgs, remote)
    requires Encode(v, |args|).Success? && LeavesInMemory(Encode(v, |args|).value.1, remote)
    requires AllAccepted(remoteArgs + TensorArgs(Encode(v, |args|).value.1), remote)
    ensures |remoteArgs| == |args|
    ensures var all := remoteArgs + TensorArgs(Encode(v, |args|).value.1);
      var place := Placement(Groups(all), Groups(args), base);
      var applied := Apply(memory, base, SnapshotResult(v, remoteArgs, remote).value, args);
      && applied.Success?
      && SameTree(v, applied.value.0, place)
      && Placed(place, remote, memory, applied.value.1)
      && ArgsPlaced(args, remoteArgs, place)
  {
    var leaves := Encode(v, |args|).value.1;
    var all := remoteArgs + TensorArgs(leaves);
    RoundTripTree(memory, base, args, remoteArgs, remote, v);
    StoragesCarry(all, remote);
    PayloadSizes(args, memory, remoteArgs, remote, leaves);
    PlacedWell(memory, base, args, Groups(all), remote, Storages(all, remote));
    PlacesArgs(args, remoteArgs, leaves, base);
  }

  /** The other half: a result with a view that its own storage does not accept is refused as a whole. */
  lemma RoundTripRefused(memory: Memory, base: nat, args: seq<Arg>, remoteArgs: seq<Arg>, remote: Memory, v: Value)
    requires RemoteRun(args, memory, remoteArgs, remote)
    requires Encode(v, |args|).Success? && LeavesInMemory(Encode(v, |args|).value.1, remote)
    requires !AllAccepted(remoteArgs + TensorArgs(Encode(v, |args|).value.1), remote)
    ensures |remoteArgs| == |args|
    ensures Apply(memory, base, SnapshotResult(v, remoteArgs, remote).value, args) == Failure(InvalidView)
  {
    assert |remoteArgs| == |Capture(remoteArgs)| == |args|;
    var leaves := Encode(v, |args|).value.1;
    CapturePrefix(remoteArgs, TensorArgs(leaves));
    AllInMemory(remoteArgs, leaves, remote);
    PayloadAccepted(remoteArgs + TensorArgs(leaves), remote);
  }

  lemma PlacesArgs(args: seq<Arg>, remoteArgs: seq<Arg>, leaves: seq<Tensor>, base: nat)
    requires Capture(remoteArgs) == Capture(args)
    ensures ArgsPlaced(args, remoteArgs, Placement(Groups(remoteArgs + TensorArgs(leaves)), Groups(args), base))
  {
    var all := remoteArgs + TensorArgs(leaves);
    var place := Placement(Groups(all), Groups(args), base);
    GroupsMeaning(all);
    forall i: nat | i < |args| && i < |remoteArgs| && args[i].TensorArg? && remoteArgs[i].TensorArg?
      ensures place.At(remoteArgs[i].tensor.storage) == args[i].tensor.storage
    {
      var g := ArgsCorrespond(args, remoteArgs, leaves, i);
      IndexUnique(Groups(all), g);
    }
  }

  lemma PlacedWell(memory: Memory, base: nat, args: seq<Arg>, groups: seq<StorageId>, remote: Memory,
                   storages: map<nat, Bytes>)
    requires forall s :: s in memory ==> s < base
    requires Carries(storages, groups, remote)
    requires SizesMatch(memory, storages, Groups(args))
    ensures Placed(Placement(groups, Groups(args), base), remote, memory, Written(memory, storages, Groups(args), base))
  {
    var inputs := Groups(args);
    var place := Placement(groups, inputs, base);
    GroupsMeaning(args);
    forall x | x in inputs ensures x < base {
      var g :| 0 <= g < |inputs| && inputs[g] == x;
      assert inputs[g] in memory;
    }
    forall s, t | s in groups && t in groups && place.At(s) == place.At(t) ensures s == t {
      PlaceInjective(groups, inputs, base, s, t);
    }
    forall s | s in groups
      ensures s in remote && place.At(s) in Written(memory, storages, inputs, base)
      ensures Written(memory, storages, inputs, base)[place.At(s)] == remote[s]
    {
      PlaceHolds(memory, base, inputs, groups, remote, storages, s);
    }
  }

  // ----------------------------------------------------------------- clones

  /** What one more argument adds to the metadata. */
  lemma CaptureAppend(before: seq<Arg>, a: Arg)
    ensures Groups(before + [a]) ==
      if a.TensorArg? && a.tensor.storage !in Groups(before) then Groups(before) + [a.tensor.storage]
        else Groups(before)
    ensures Capture(before + [a]) == Capture(before) + [NextSpec(a, Groups(before))]
  {
    var args := before + [a];
    assert args[..|args| - 1] == before && a in args;
    CapturePrefix(before, [a]);
    GroupsMeaning(before);
    GroupsMeaning(args);
    if a.TensorArg? {
      if a.tensor.storage in Groups(before) {
        IndexUnique(Groups(args), IndexOf(Groups(before), a.tensor.storage));
      } else {
        IndexUnique(Groups(args), |Groups(before)|);
      }
    }
  }

  function NextSpec(a: Arg, groups: seq<StorageId>): Spec {
    match a
    case ScalarArg(s) => ValueSpec(s)
    case TensorArg(t) => TensorSpec(t.view, if t.storage in groups then IndexOf(groups, t.storage) else |groups|)
  }

  function RebuildOne(spec: Spec, base: nat): Arg {
    match spec
    case ValueSpec(s) => ScalarArg(s)
    case TensorSpec(view, group) => TensorArg(Tensor(base + group, view))
  }

  /** The remote arguments: each group becomes one new buffer, and every view is rebuilt over it. */
  function Rebuild(specs: seq<Spec>, base: nat): (args: seq<Arg>)
    ensures |args| == |specs| && forall i :: 0 <= i < |args| ==> args[i] == RebuildOne(specs[i], base)
  {
    seq(|specs|, i requires 0 <= i < |specs| => RebuildOne(specs[i], base))
  }

  function Shifted(n: nat, base: nat): (s: seq<StorageId>)
    ensures |s| == n && forall g :: 0 <= g < n ==> s[g] == base + g
  {
    seq(n, g requires 0 <= g => base + g)
  }

  lemma RebuildAppend(specs: seq<Spec>, spec: Spec, base: nat)
    ensures Rebuild(specs + [spec], base) == Rebuild(specs, base) + [RebuildOne(spec, base)]
  {
  }

  lemma ClonedNext(before: seq<Arg>, a: Arg, base: nat)
    requires Groups(Rebuild(Capture(before), base)) == Shifted(|Groups(before)|, base)
    ensures Groups(Rebuild(Capture(before + [a]), base)) == Shifted(|Groups(before + [a])|, base)
  {
    var clones, spec := Rebuild(Capture(before), base), NextSpec(a, Groups(before));
    CaptureAppend(before, a);
    RebuildAppend(Capture(before), spec, base);
    ClonedGroupsNext(clones, a, Groups(before), base);
  }

  /** The clone of an argument has a new buffer exactly if the argument has a new storage. */
  lemma ClonedGroupsNext(clones: seq<Arg>, a: Arg, groups: seq<StorageId>, base: nat)
    requires Groups(clones) == Shifted(|groups|, base)
    ensures Groups(clones + [RebuildOne(NextSpec(a, groups), base)]) ==
      Shifted(if a.TensorArg? && a.tensor.storage !in groups then |groups| + 1 else |groups|, base)
  {
    CaptureAppend(clones, RebuildOne(NextSpec(a, groups), base));
    ShiftedHas(|groups|, base);
  }

  lemma {:induction false} ClonedGroups(args: seq<Arg>, base: nat)
    ensures Groups(Rebuild(Capture(args), base)) == Shifted(|Groups(args)|, base)
  {
    if args == [] {
      assert Groups(args) == [] && Rebuild(Capture(args), base) == [];
    } else {
      var init, last := args[..|args| - 1], args[|args| - 1];
      ClonedGroups(init, base);
      ClonedNext(init, last, base);
      assert args == init + [last];
    }
  }

  lemma ShiftedHas(n: nat, base: nat)
    ensures forall s :: s in Shifted(n, base) <==> base <= s < base + n
    ensures Shifted(n + 1, base) == Shifted(n, base) + [base + n]
  {
    forall s | base <= s < base + n ensures s in Shifted(n, base) {
      assert Shifted(n, base)[s - base] == s;
    }
  }

  /** Clones have the metadata, and therefore the aliases, of what they were cloned from. */
  lemma CloneCapture(args: seq<Arg>, base: nat)
    ensures Capture(Rebuild(Capture(args), base)) == Capture(args)
  {
    var clones := Rebuild(Capture(args), base);
    ClonedGroups(args, base);
    GroupsMeaning(args);
    GroupsMeaning(clones);
    forall i | 0 <= i < |args| ensures Capture(clones)[i] == Capture(args)[i] {
      assert args[i] in args && clones[i] in clones;
      if args[i].TensorArg? {
        IndexUnique(Groups(clones), IndexOf(Groups(args), args[i].tensor.storage));
      }
    }
  }

  /** A remote process that keeps the sizes of the cloned storages, whatever else it does, is a remote run. */
  lemma CloneRun(args: seq<Arg>, memory: Memory, base: nat, remote: Memory)
    requires InMemory(args, memory)
    requires forall g: nat :: g < |Groups(args)| ==>
      base + g in remote && Groups(args)[g] in memory && |remote[base + g]| == |memory[Groups(args)[g]]|
    ensures RemoteRun(args, memory, Rebuild(Capture(args), base), remote)
  {
    CloneCapture(args, base);
    GroupsMeaning(args);
    var clones := Rebuild(Capture(args), base);
    forall i: nat | i < |args| && args[i].TensorArg?
      ensures clones[i].TensorArg? && clones[i].tensor.storage in remote
      ensures |remote[clones[i].tensor.storage]| == |memory[args[i].tensor.storage]|
    {
      assert args[i] in args;
    }
    forall a | a in clones && a.TensorArg? ensures a.tensor.storage in remote {
      var i :| 0 <= i < |clones| && clones[i] == a;
    }
  }

  // ------------------------------------------------------------ the process

  ghost predicate GroupMap(groups: map<StorageId, nat>, order: seq<StorageId>) {
    && (forall s :: s in groups <==> s in order)
    && forall s :: s in groups ==> groups[s] < |order| && order[groups[s]] == s
  }

  ghost predicate Numbers(groups: map<StorageId, nat>, order: seq<StorageId>) {
    GroupMap(groups, order) && |groups| == |order|
  }

  lemma NumbersNew(groups: map<StorageId, nat>, order: seq<StorageId>, s: StorageId)
    requires Numbers(groups, order) && s !in groups
    ensures Numbers(groups[s := |groups|], order + [s])
  {
    assert groups[s := |groups|].Keys == groups.Keys + {s};
  }

  /** Describes one more argument after `before`. */
  method CaptureInput(a: Arg, groups: map<StorageId, nat>, ghost before: seq<Arg>)
    returns (spec: Spec, groups': map<StorageId, nat>)
    requires Numbers(groups, Groups(before))
    ensures spec == NextSpec(a, Groups(before)) && Numbers(groups', Groups(before + [a]))
  {
    CaptureAppend(before, a);
    groups' := groups;
    match a {
      case ScalarArg(s) =>
        spec := ValueSpec(s);
      case TensorArg(t) =>
        if t.storage in groups {
          GroupsMeaning(before);
          IndexUnique(Groups(before), groups[t.storage]);
        } else {
          NumbersNew(groups, Groups(before), t.storage);
          groups' := groups[t.storage := |groups|];
        }
        spec := TensorSpec(t.view, groups'[t.storage]);
    }
  }

  /** Describes the arguments with a growing map from storages to group numbers. */
  method CaptureInputs(args: seq<Arg>) returns (specs: seq<Spec>, groups: map<StorageId, nat>)
    ensures specs == Capture(args) && Numbers(groups, Groups(args))
  {
    specs, groups := [], map[];
    var i := 0;
    while i < |args|
      invariant 0 <= i <= |args|
      invariant specs == Capture(args[..i]) && Numbers(groups, Groups(args[..i]))
    {
      assert args[..i + 1] == args[..i] + [args[i]];
      CaptureAppend(args[..i], args[i]);
      var spec;
      spec, groups := CaptureInput(args[i], groups, args[..i]);
      specs := specs + [spec];
      i := i + 1;
    }
    assert args[..i] == args;
  }

  method CheckViews(p: Payload) returns (ok: bool)
    ensures ok <==> forall s :: s in p.specs ==> SpecAccepted(s, p.storages)
  {
    var k := 0;
    while k < |p.specs|
      invariant 0 <= k <= |p.specs|
      invariant forall j :: 0 <= j < k ==> SpecAccepted(p.specs[j], p.storages)
    {
      if !SpecAccepted(p.specs[k], p.storages) {
        assert p.specs[k] in p.specs;
        return false;
      }
      k := k + 1;
    }
    return true;
  }

  /** The first `n` inputs hold the payload's bytes; everything else is as it was. */
  ghost predicate Overwritten(before: Memory, after: Memory, storages: map<nat, Bytes>, inputs: seq<StorageId>,
                              n: nat)
  {
    && n <= |inputs|
    && after.Keys == before.Keys
    && (forall g :: 0 <= g < |inputs| ==>
          g in storages && inputs[g] in after && after[inputs[g]] == if g < n then storages[g] else before[inputs[g]])
    && forall s :: s in after && s !in inputs ==> after[s] == before[s]
  }

  lemma OverwrittenAll(before: Memory, after: Memory, storages: map<nat, Bytes>, inputs: seq<StorageId>)
    requires Overwritten(before, after, storages, inputs, |inputs|)
    ensures Overwrite(before, storages, inputs) == after
  {
    var all := Overwrite(before, storages, inputs);
    assert all.Keys == after.Keys;
    forall s | s in after ensures all[s] == after[s] {
      if s in inputs {
        var g := IndexOf(inputs, s);
        assert after[inputs[g]] == storages[g];
      }
    }
  }

  lemma InputsInMemory(args: seq<Arg>, memory: Memory)
    requires InMemory(args, memory)
    ensures Distinct(Groups(args)) && forall g :: 0 <= g < |Groups(args)| ==> Groups(args)[g] in memory
  {
    GroupsMeaning(args);
    forall g | 0 <= g < |Groups(args)| ensures Groups(args)[g] in memory {
      assert Groups(args)[g] in Groups(args);
    }
  }

  lemma BufferBelow(storages: map<nat, Bytes>, inputs: nat, base: nat, bound: nat, s: StorageId)
    requires (forall g :: g in storages ==> g < bound) && s in NewBuffers(storages, inputs, base)
    ensures s < base + bound
  {
  }

  /** A number above all groups. */
  method Bound(groups: set<nat>) returns (bound: nat)
    ensures forall g :: g in groups ==> g < bound
  {
    bound := 0;
    var left := groups;
    while left != {}
      invariant forall g :: g in groups && g !in left ==> g < bound
      decreases left
    {
      var g :| g in left;
      bound := if g < bound then bound else g + 1;
      left := left - {g};
    }
  }

  class Process {
    var memory: Memory
    var next: nat

    constructor (memory: Memory, next: nat)
      requires forall s :: s in memory ==> s < next
      ensures this.memory == memory && this.next == next && Valid()
    {
      this.memory, this.next := memory, next;
    }

    ghost predicate Valid()
      reads this
    {
      forall s :: s in memory ==> s < next
    }

    /** Overwrites each input storage once; all sizes are checked before the first write. */
    method ApplyWrites(storages: map<nat, Bytes>, inputs: seq<StorageId>) returns (ok: bool)
      requires Distinct(inputs) && forall g :: 0 <= g < |inputs| ==> inputs[g] in memory
      modifies this`memory
      ensures ok <==> SizesMatch(old(memory), storages, inputs)
      ensures if ok then Overwritten(old(memory), memory, storages, inputs, |inputs|) else memory == old(memory)
    {
      var g := 0;
      while g < |inputs|
        invariant 0 <= g <= |inputs|
        invariant forall h :: 0 <= h < g ==> h in storages && |storages[h]| == |memory[inputs[h]]|
      {
        if g !in storages || |storages[g]| != |memory[inputs[g]]| {
          return false;
        }
        g := g + 1;
      }
      g := 0;
      while g < |inputs|
        invariant 0 <= g <= |inputs|
        invariant Overwritten(old(memory), memory, storages, inputs, g)
      {
        memory := memory[inputs[g] := storages[g]];
        g := g + 1;
      }
      return true;
    }

    /** Every storage that no input stands for becomes a new buffer. */
    method AddBuffers(storages: map<nat, Bytes>, inputs: nat)
      requires Valid()
      modifies this
      ensures Valid() && memory == old(memory) + NewBuffers(storages, inputs, old(next))
    {
      var bound := Bound(storages.Keys);
      ghost var buffers := NewBuffers(storages, inputs, next);
      forall s | s in buffers ensures s < next + bound {
        BufferBelow(storages, inputs, next, bound, s);
      }
      memory, next := memory + NewBuffers(storages, inputs, next), next + bound;
    }

    /** Every check but that of the sizes; the tree is rebuilt over buffers that are still to come. */
    method Validate(p: Payload, args: seq<Arg>) returns (r: Result<Value, Error>)
      ensures r.Failure? ==> Apply(memory, next, p, args) == Failure(r.error)
      ensures r.Success? ==>
        && p.inputCount == |args| <= |p.specs| && p.specs[..|args|] == Capture(args)
        && (forall s :: s in p.specs ==> SpecAccepted(s, p.storages))
        && Decode(p.tree, Context(args, Capture(args), p.specs, Groups(args), next)) == r
    {
      if p.inputCount != |args| {
        return Failure(CountDiffers);
      }
      var original, groups := CaptureInputs(args);
      if |p.specs| < |args| || p.specs[..|args|] != original {
        return Failure(MetadataDiffers);
      }
      var accepted := CheckViews(p);
      if !accepted {
        return Failure(InvalidView);
      }
      return Decode(p.tree, Context(args, original, p.specs, Groups(args), next));
    }

    /** Validates a payload, rebuilds the result, and writes the inputs; a refusal writes nothing. */
    method ApplyResult(p: Payload, args: seq<Arg>) returns (r: Result<Value, Error>)
      requires Valid() && InMemory(args, memory)
      modifies this
      ensures Valid() && old(memory).Keys <= memory.Keys
      ensures r.Failure? ==> next == old(next)
      ensures r.Success? ==> Apply(old(memory), old(next), p, args) == Success((r.value, memory))
      ensures r.Failure? ==> Apply(old(memory), old(next), p, args) == Failure(r.error) && memory == old(memory)
    {
      r := Validate(p, args);
      if r.Failure? {
        return;
      }
      var inputs := Groups(args);
      InputsInMemory(args, memory);
      ApplyDecides(memory, next, p, args);
      var written := ApplyWrites(p.storages, inputs);
      if !written {
        return Failure(SizesDiffer);
      }
      OverwrittenAll(old(memory), memory, p.storages, inputs);
      AddBuffers(p.storages, |inputs|);
    }
  }
}
