// Upload of one file in parts: which bytes each part holds, how receipts of an
// earlier attempt or of a lost response are reconciled with the local bytes, and
// the counters that are reported while the parts complete in any order.

module PartUploads {
  import opened Outcomes
  import opened Arithmetic
  import Sequences
  import Transfers
  import Uploads

  type Bytes = Transfers.Bytes
  type Attempt = Transfers.Attempt<()>

  const MAXIMUM_PART_BYTES: nat := 64 * 1024 * 1024

  datatype Receipt = Receipt(number: int, size: int, digest: string)

  /** The answer to a part that is sent; no status code means that the connection failed. */
  datatype Put = Stored | PutFails(code: Option<int>)

  datatype Lookup = Receipts(parts: seq<Receipt>) | LookupFails(code: Option<int>)

  datatype Error = PartSizeInvalid | ReceiptsInvalid | Cancelled | SourceChanged | Conflict | Sending
    | Stopped(cause: Uploads.Error)

  // ---------------------------------------------------------------------- parts

  function PartCount(size: nat, partSize: nat): nat
    requires partSize > 0
  {
    CeilDiv(size, partSize)
  }

  function PartLength(p: nat, size: nat, partSize: nat): int {
    if partSize <= size - p * partSize then partSize else size - p * partSize
  }

  /** The end of the first k parts. */
  function Covered(k: nat, size: nat, partSize: nat): nat {
    if k * partSize <= size then k * partSize else size
  }

  /** Part p starts where the parts before it end, is not empty, and the last part ends the file. */
  lemma PartsAdjoin(p: nat, size: nat, partSize: nat)
    requires partSize > 0 && p < PartCount(size, partSize)
    ensures p * partSize == Covered(p, size, partSize) < size
    ensures 0 < PartLength(p, size, partSize) <= partSize
    ensures p * partSize + PartLength(p, size, partSize) == Covered(p + 1, size, partSize) <= size
    ensures Covered(PartCount(size, partSize), size, partSize) == size
  {
    CeilDivMeaning(size, partSize);
    Monotone(p, PartCount(size, partSize) - 1, partSize);
    Distribute(p, 1, partSize);
  }

  function Slice(file: Bytes, p: nat, partSize: nat): Bytes
    requires partSize > 0 && p < PartCount(|file|, partSize)
  {
    PartsAdjoin(p, |file|, partSize);
    file[p * partSize..p * partSize + PartLength(p, |file|, partSize)]
  }

  function Slices(file: Bytes, k: nat, partSize: nat): seq<Bytes>
    requires partSize > 0 && k <= PartCount(|file|, partSize)
  {
    if k == 0 then [] else Slices(file, k - 1, partSize) + [Slice(file, k - 1, partSize)]
  }

  /** The parts put together are the file. */
  lemma PartsMakeFile(file: Bytes, partSize: nat)
    requires partSize > 0
    ensures Sequences.Flatten(Slices(file, PartCount(|file|, partSize), partSize)) == file
  {
    var n := PartCount(|file|, partSize);
    CeilDivMeaning(|file|, partSize);
    PartsMakePrefix(file, n, partSize);
    assert file[..|file|] == file;
  }

  lemma {:induction false} PartsMakePrefix(file: Bytes, k: nat, partSize: nat)
    requires partSize > 0 && k <= PartCount(|file|, partSize)
    ensures Sequences.Flatten(Slices(file, k, partSize)) == file[..Covered(k, |file|, partSize)]
  {
    if k > 0 {
      PartsMakePrefix(file, k - 1, partSize);
      PartsAdjoin(k - 1, |file|, partSize);
      Sequences.FlattenAppend(Slices(file, k - 1, partSize), Slice(file, k - 1, partSize));
      SliceAppend(file, Covered(k - 1, |file|, partSize), Covered(k, |file|, partSize));
    }
  }

  lemma SliceAppend(file: Bytes, i: nat, j: nat)
    requires i <= j <= |file|
    ensures file[..i] + file[i..j] == file[..j]
  {
  }

  // ------------------------------------------------------------------- receipts

  /** The receipts a session may list: distinct parts of the file. */
  ghost predicate ReceiptsValid(parts: seq<Receipt>, count: nat) {
    && (forall i :: 0 <= i < |parts| ==> 0 <= parts[i].number < count)
    && forall i, j :: 0 <= i < j < |parts| ==> parts[i].number != parts[j].number
  }

  /** The receipts by part number, unless one is invalid or repeated. */
  method LoadReceipts(parts: seq<Receipt>, count: nat) returns (r: Result<map<nat, Receipt>, Error>)
    ensures r.Success? <==> ReceiptsValid(parts, count)
    ensures r.Failure? ==> r.error == ReceiptsInvalid
    ensures r.Success? ==>
      && (forall i :: 0 <= i < |parts| ==> parts[i].number in r.value && r.value[parts[i].number] == parts[i])
      && forall p :: p in r.value ==> p < count && r.value[p] in parts && r.value[p].number == p
  {
    var uploaded: map<nat, Receipt> := map[];
    for k := 0 to |parts|
      invariant ReceiptsValid(parts[..k], count)
      invariant forall i :: 0 <= i < k ==> parts[i].number in uploaded && uploaded[parts[i].number] == parts[i]
      invariant forall p :: p in uploaded ==> p < count && uploaded[p].number == p && uploaded[p] in parts[..k]
    {
      var number := parts[k].number;
      assert parts[..k + 1] == parts[..k] + [parts[k]];
      if number < 0 || number >= count {
        return Failure(ReceiptsInvalid);
      }
      if number in uploaded {
        ghost var i :| 0 <= i < k && parts[..k][i] == uploaded[number];
        assert parts[i].number == parts[k].number;
        return Failure(ReceiptsInvalid);
      }
      uploaded := uploaded[number := parts[k]];
    }
    assert parts[..|parts|] == parts;
    return Success(uploaded);
  }

  /** A receipt for exactly these bytes. */
  predicate Attests(receipt: Receipt, chunk: Bytes, sha256: Bytes -> string) {
    receipt.size == |chunk| && receipt.digest == sha256(chunk)
  }

  function Find(parts: seq<Receipt>, p: nat): (r: Option<Receipt>)
    ensures r.Some? ==> r.value in parts && r.value.number == p
    ensures r.None? ==> forall i :: 0 <= i < |parts| ==> parts[i].number != p
  {
    if parts == [] then None
    else if parts[0].number == p then Some(parts[0])
    else Find(parts[1..], p)
  }

  function Failing(code: Option<int>): Attempt {
    if code.None? then Transfers.Transient else Transfers.Rejected(code.value)
  }

  /** One attempt to send a part. A lost response is settled by the receipt of the part. */
  function SendPart(p: nat, chunk: Bytes, sha256: Bytes -> string, put: Put, lookup: Lookup): Attempt {
    if put.Stored? then Transfers.Answered(())
    else if !Failing(put.code).Retryable() then Failing(put.code)
    else if lookup.LookupFails? then Failing(lookup.code)
    else
      var receipt := Find(lookup.parts, p);
      if receipt.None? then Failing(put.code)
      else if Attests(receipt.value, chunk, sha256) then Transfers.Answered(())
      else Transfers.Rejected(0)
  }

  /** No status because the connection failed, or one that asks to try again. */
  ghost predicate TryAgain(code: Option<int>) {
    match code
    case None => true
    case Some(c) => c in {408, 429, 500, 502, 503, 504, 520, 522, 523, 524}
  }

  /** The first receipt of a part. */
  ghost predicate FirstOf(parts: seq<Receipt>, i: nat, p: nat) {
    i < |parts| && parts[i].number == p && forall j :: 0 <= j < i ==> parts[j].number != p
  }

  ghost predicate ReceiptShown(lookup: Lookup, p: nat, chunk: Bytes, sha256: Bytes -> string) {
    && lookup.Receipts?
    && exists i: nat ::
      FirstOf(lookup.parts, i, p) && lookup.parts[i].size == |chunk| && lookup.parts[i].digest == sha256(chunk)
  }

  ghost predicate NothingShown(lookup: Lookup, p: nat) {
    match lookup
    case LookupFails(code) => TryAgain(code)
    case Receipts(parts) => forall i :: 0 <= i < |parts| ==> parts[i].number != p
  }

  /**
   An attempt gets a part through exactly if the part was accepted, or after a temporary
   failure the server has a receipt of these bytes. It is worth another one exactly if
   both failed temporarily, or the server has no receipt of the part; a receipt of other
   bytes ends it.
   */
  lemma SendMeaning(p: nat, chunk: Bytes, sha256: Bytes -> string, put: Put, lookup: Lookup)
    ensures var a := SendPart(p, chunk, sha256, put, lookup);
      && (a.Answered? <==> put.Stored? || (TryAgain(put.code) && ReceiptShown(lookup, p, chunk, sha256)))
      && (a.Retryable() <==> put.PutFails? && TryAgain(put.code) && NothingShown(lookup, p))
  {
    if put.PutFails? && TryAgain(put.code) && lookup.Receipts? {
      FindFirst(lookup.parts, p);
    }
  }

  lemma {:induction false} FindFirst(parts: seq<Receipt>, p: nat)
    ensures Find(parts, p).Some? ==> exists i: nat :: FirstOf(parts, i, p) && parts[i] == Find(parts, p).value
    ensures forall i: nat :: FirstOf(parts, i, p) ==> Find(parts, p) == Some(parts[i])
  {
    if parts != [] && parts[0].number != p {
      FindFirst(parts[1..], p);
      if Find(parts, p).Some? {
        var i: nat :| FirstOf(parts[1..], i, p) && parts[1..][i] == Find(parts, p).value;
        assert FirstOf(parts, i + 1, p) && parts[i + 1] == parts[1..][i];
      }
      forall i: nat | FirstOf(parts, i, p) ensures Find(parts, p) == Some(parts[i]) {
        assert i > 0 && FirstOf(parts[1..], i - 1, p);
      }
    } else if parts != [] {
      assert FirstOf(parts, 0, p);
    }
  }

  /** How the server of a session answers, part by part and attempt by attempt. */
  datatype Server = Server(put: (nat, nat) -> Put, lookup: (nat, nat) -> Lookup) {

    /** The server stores what it accepts, and every receipt is of what is stored. */
    ghost predicate Honest(stored: map<nat, Bytes>, sent: map<nat, Bytes>, initial: seq<Receipt>,
                           sha256: Bytes -> string)
    {
      && (forall p, k :: p in sent && put(p, k).Stored? ==> p in stored && stored[p] == sent[p])
      && (forall p: nat, k: nat :: lookup(p, k).Receipts? ==> AllTrue(lookup(p, k).parts, stored, sha256))
      && AllTrue(initial, stored, sha256)
    }
  }

  ghost predicate AllTrue(parts: seq<Receipt>, stored: map<nat, Bytes>, sha256: Bytes -> string) {
    forall i :: 0 <= i < |parts| && parts[i].number >= 0 ==>
      parts[i].number in stored && Attests(parts[i], stored[parts[i].number], sha256)
  }

  /** What makes a part count as uploaded: a receipt of its bytes, or an attempt that succeeded. */
  ghost predicate Uploaded(p: nat, chunk: Bytes, receipts: map<nat, Receipt>, server: Server, sha256: Bytes -> string) {
    if p in receipts then Attests(receipts[p], chunk, sha256)
    else exists k: nat ::
      k < 4 && SendPart(p, chunk, sha256, server.put(p, k), server.lookup(p, k)).Answered?
  }

  /** With an honest server and digests that tell bytes apart, an uploaded part is stored. */
  lemma UploadedIsStored(p: nat, chunk: Bytes, receipts: map<nat, Receipt>, initial: seq<Receipt>, server: Server,
                         sha256: Bytes -> string, stored: map<nat, Bytes>, sent: map<nat, Bytes>)
    requires Uploaded(p, chunk, receipts, server, sha256) && Transfers.Injective(sha256)
    requires server.Honest(stored, sent, initial, sha256) && p in sent && sent[p] == chunk
    requires forall q :: q in receipts ==> receipts[q] in initial && receipts[q].number == q
    ensures p in stored && stored[p] == chunk
  {
    if p in receipts {
      var i :| 0 <= i < |initial| && initial[i] == receipts[p];
      assert Attests(initial[i], stored[p], sha256);
    } else {
      var k: nat :| k < 4 &&
        SendPart(p, chunk, sha256, server.put(p, k), server.lookup(p, k)).Answered?;
      if !server.put(p, k).Stored? {
        var parts := server.lookup(p, k).parts;
        var receipt := Find(parts, p).value;
        var i :| 0 <= i < |parts| && parts[i] == receipt;
        assert Attests(parts[i], stored[p], sha256);
      }
    }
  }

  // ------------------------------------------------------------------- counters

  /** The bytes of the parts below n that are in a set. */
  function SumParts(n: nat, done: set<nat>, size: nat, partSize: nat): (sum: nat)
    requires partSize > 0 && n <= PartCount(size, partSize)
  {
    if n == 0 then 0
    else
      PartsAdjoin(n - 1, size, partSize);
      SumParts(n - 1, done, size, partSize) + if n - 1 in done then PartLength(n - 1, size, partSize) else 0
  }

  lemma {:induction false} SumPartsAdd(n: nat, done: set<nat>, p: nat, size: nat, partSize: nat)
    requires partSize > 0 && n <= PartCount(size, partSize) && p !in done
    ensures SumParts(n, done + {p}, size, partSize) ==
      SumParts(n, done, size, partSize) + if p < n then PartLength(p, size, partSize) else 0
  {
    if n > 0 {
      SumPartsAdd(n - 1, done, p, size, partSize);
    }
  }

  /** All parts together have the size of the file, and no set of parts has more. */
  lemma {:induction false} SumPartsAll(n: nat, done: set<nat>, size: nat, partSize: nat)
    requires partSize > 0 && n <= PartCount(size, partSize)
    ensures SumParts(n, done, size, partSize) <= Covered(n, size, partSize)
    ensures (forall p: nat :: p < n ==> p in done) ==> SumParts(n, done, size, partSize) == Covered(n, size, partSize)
  {
    if n > 0 {
      SumPartsAll(n - 1, done, size, partSize);
      PartsAdjoin(n - 1, size, partSize);
    }
  }

  /** What is reported while parts complete. */
  datatype Progress = Progress(completed: nat, transferred: nat, reused: nat)

  /** Counters after the parts in `done` were reported. */
  ghost predicate Counts(c: Progress, done: set<nat>, reusable: set<nat>, size: nat, partSize: nat)
    requires partSize > 0
  {
    var n := PartCount(size, partSize);
    && c.completed == SumParts(n, done, size, partSize)
    && c.reused == SumParts(n, done * reusable, size, partSize)
    && c.transferred == SumParts(n, done - reusable, size, partSize)
    && c.completed == c.transferred + c.reused <= size
  }

  lemma CountsStart(reusable: set<nat>, size: nat, partSize: nat)
    requires partSize > 0
    ensures Counts(Progress(0, 0, 0), {}, reusable, size, partSize)
  {
    assert {} * reusable == {} && {} - reusable == {};
    SumPartsNone(PartCount(size, partSize), size, partSize);
  }

  lemma {:induction false} SumPartsNone(n: nat, size: nat, partSize: nat)
    requires partSize > 0 && n <= PartCount(size, partSize)
    ensures SumParts(n, {}, size, partSize) == 0
  {
    if n > 0 {
      SumPartsNone(n - 1, size, partSize);
    }
  }

  function Counted(c: Progress, bytes: nat, reused: bool): Progress {
    Progress(c.completed + bytes, c.transferred + (if reused then 0 else bytes), c.reused + if reused then bytes else 0)
  }

  lemma CountsNext(c: Progress, done: set<nat>, reusable: set<nat>, size: nat, partSize: nat, p: nat)
    requires partSize > 0 && Counts(c, done, reusable, size, partSize) && p !in done && p < PartCount(size, partSize)
    ensures PartLength(p, size, partSize) >= 0
    ensures Counts(Counted(c, PartLength(p, size, partSize), p in reusable), done + {p}, reusable, size, partSize)
  {
    var n := PartCount(size, partSize);
    PartsAdjoin(p, size, partSize);
    SumPartsAdd(n, done, p, size, partSize);
    SumPartsAll(n, done + {p}, size, partSize);
    CeilDivMeaning(size, partSize);
    if p in reusable {
      assert (done + {p}) * reusable == done * reusable + {p};
      assert (done + {p}) - reusable == done - reusable;
      SumPartsAdd(n, done * reusable, p, size, partSize);
    } else {
      assert (done + {p}) * reusable == done * reusable;
      assert (done + {p}) - reusable == (done - reusable) + {p};
      SumPartsAdd(n, done - reusable, p, size, partSize);
    }
  }

  // ------------------------------------------------------------------ one upload

  class Upload {
    const size: nat
    const partSize: nat
    const sha256: Bytes -> string
    const server: Server
    /** The bytes read for a part, unless the file changed size. */
    const read: nat -> Option<Bytes>
    const cancelled: (nat, nat) -> bool
    var receipts: map<nat, Receipt>
    var progress: Progress
    /** Every progress report. */
    var log: seq<Progress>

    constructor (size: nat, partSize: nat, sha256: Bytes -> string, server: Server, read: nat -> Option<Bytes>,
                 cancelled: (nat, nat) -> bool, receipts: map<nat, Receipt>)
      requires partSize > 0
      ensures this.size == size && this.partSize == partSize && this.sha256 == sha256 && this.server == server
      ensures this.read == read && this.cancelled == cancelled && this.receipts == receipts
      ensures progress == Progress(0, 0, 0) && log == []
    {
      this.size, this.partSize, this.sha256, this.server := size, partSize, sha256, server;
      this.read, this.cancelled, this.receipts := read, cancelled, receipts;
      progress, log := Progress(0, 0, 0), [];
    }

    /** The part was read in full, and the server has it. */
    ghost predicate PartOk(p: nat)
      reads this
    {
      && read(p).Some? && |read(p).value| == PartLength(p, size, partSize)
      && Uploaded(p, read(p).value, receipts, server, sha256)
    }

    /** The outcome of one attempt to send a part. */
    function Sent(p: nat, k: nat): Attempt
      reads this
    {
      if read(p).Some? then SendPart(p, read(p).value, sha256, server.put(p, k), server.lookup(p, k))
        else Transfers.Transient
    }

    /** Nothing stands against a part: it can be read, and its receipt matches or one of four attempts gets through. */
    ghost predicate Transferable(p: nat)
      reads this
    {
      && (forall n: nat :: !cancelled(p, n))
      && read(p).Some? && |read(p).value| == PartLength(p, size, partSize)
      && if p in receipts then Attests(receipts[p], read(p).value, sha256)
         else exists k: nat :: k < 4 && GetsThrough(p, k)
    }

    ghost predicate GetsThrough(p: nat, k: nat)
      reads this
    {
      Sent(p, k).Answered? && forall i: nat :: i < k ==> Sent(p, i).Retryable()
    }

    method TransferPart(p: nat) returns (r: Result<(nat, bool), Error>)
      requires partSize > 0 && p < PartCount(size, partSize)
      ensures r.Success? ==> PartOk(p) && r.value == (|read(p).value|, p in receipts)
      ensures r == Failure(Conflict) ==> p in receipts && read(p).Some? && !Attests(receipts[p], read(p).value, sha256)
      ensures Transferable(p) ==> r.Success?
    {
      if cancelled(p, 0) {
        return Failure(Cancelled);
      }
      var chunk := read(p);
      if chunk.None? || |chunk.value| != PartLength(p, size, partSize) {
        return Failure(SourceChanged);
      }
      if p in receipts {
        if !Attests(receipts[p], chunk.value, sha256) {
          return Failure(Conflict);
        }
        return Success((|chunk.value|, true));
      }
      var action := (k: nat) => SendPart(p, chunk.value, sha256, server.put(p, k), server.lookup(p, k));
      var sent, made := Transfers.RetryRequest(action,
        (k: nat) => cancelled(p, 2 * k + 1), (k: nat) => cancelled(p, 2 * k + 2));
      if sent.Cancelled? {
        return Failure(Cancelled);
      }
      forall k: nat | k < made - 1
        ensures Sent(p, k).Retryable()
      {
        assert action(k).Retryable();
      }
      assert sent.attempt == Sent(p, made - 1);
      if !sent.attempt.Answered? {
        return Failure(Sending);
      }
      assert Sent(p, made - 1).Answered?;
      return Success((|chunk.value|, false));
    }

    /** What becomes of every part. */
    method TransferParts() returns (results: seq<Result<(nat, bool), Error>>)
      requires partSize > 0
      ensures |results| == PartCount(size, partSize)
      ensures forall p :: 0 <= p < |results| && results[p].Success? ==>
        PartOk(p) && results[p].value == (PartLength(p, size, partSize), p in receipts)
      ensures forall p :: 0 <= p < |results| && Transferable(p) ==> results[p].Success?
    {
      results := [];
      for p := 0 to PartCount(size, partSize)
        invariant |results| == p
        invariant forall q :: 0 <= q < p && results[q].Success? ==>
          PartOk(q) && results[q].value == (PartLength(q, size, partSize), q in receipts)
        invariant forall q :: 0 <= q < p && Transferable(q) ==> results[q].Success?
      {
        var result := TransferPart(p);
        results := results + [result];
      }
    }

    /** A part is done: the counters grow, and are reported. */
    method Completed(bytes: nat, reused: bool)
      modifies this`progress, this`log
      ensures progress == Counted(old(progress), bytes, reused) && log == old(log) + [progress]
    {
      progress := Counted(progress, bytes, reused);
      log := log + [progress];
    }

    /** The counters follow the parts that a run reports, in whichever order. */
    method Account(trace: seq<Uploads.Event>, results: seq<Result<(nat, bool), Error>>, ghost concurrency: nat,
                   ghost work: Uploads.Work)
      requires partSize > 0 && progress == Progress(0, 0, 0) && log == []
      requires Uploads.Lawful(trace, concurrency, work) && work.items == |results| == PartCount(size, partSize)
      requires forall p :: 0 <= p < |results| ==> (work.taskRaises(p) <==> results[p].Failure?)
      requires forall p :: 0 <= p < |results| && results[p].Success? ==>
        results[p].value == (PartLength(p, size, partSize), p in receipts)
      modifies this`progress, this`log
      ensures Counts(progress, Uploads.After(trace).reported, receipts.Keys, size, partSize)
      ensures forall c :: c in log ==> c.completed == c.transferred + c.reused <= size
    {
      CountsStart(receipts.Keys, size, partSize);
      for k := 0 to |trace|
        invariant Counts(progress, Uploads.After(trace[..k]).reported, receipts.Keys, size, partSize)
        invariant forall c :: c in log ==> c.completed == c.transferred + c.reused <= size
      {
        Uploads.ReportStep(trace, concurrency, work, k);
        if trace[k].Reported? {
          var p := trace[k].task;
          CountsNext(progress, Uploads.After(trace[..k]).reported, receipts.Keys, size, partSize, p);
          Completed(results[p].value.0, results[p].value.1);
        }
      }
      assert trace[..|trace|] == trace;
    }

    /** All parts were transferred and all bytes counted once. */
    ghost predicate Complete()
      reads this
    {
      && partSize > 0 && (forall p: nat :: p < PartCount(size, partSize) ==> PartOk(p))
      && progress.completed == size == progress.transferred + progress.reused
      && progress.reused == SumParts(PartCount(size, partSize), receipts.Keys, size, partSize)
    }

    lemma AllCounted(trace: seq<Uploads.Event>, concurrency: nat, work: Uploads.Work)
      requires partSize > 0 && Uploads.Lawful(trace, concurrency, work) && Uploads.Load(Uploads.After(trace)) == 0
      requires Uploads.After(trace).cause.None? && Uploads.After(trace).next == work.items == PartCount(size, partSize)
      requires Counts(progress, Uploads.After(trace).reported, receipts.Keys, size, partSize)
      requires forall p :: p in receipts ==> p < PartCount(size, partSize)
      ensures progress.completed == size
      ensures progress.reused == SumParts(PartCount(size, partSize), receipts.Keys, size, partSize)
      ensures forall p: nat :: p < work.items ==> !work.taskRaises(p)
    {
      var done := Uploads.After(trace).reported;
      forall p: nat | p < work.items
        ensures p in done && !work.taskRaises(p)
      {
        Uploads.AllReported(trace, concurrency, work, p);
      }
      SumPartsAll(work.items, done, size, partSize);
      CeilDivMeaning(size, partSize);
      assert done * receipts.Keys == receipts.Keys;
    }

    /** Every part is transferable, and no progress report raises and no wait is interrupted. */
    ghost predicate Unhindered(progressRaises: nat -> bool, interrupts: nat -> bool)
      reads this
    {
      && partSize > 0 && (forall p: nat :: p < PartCount(size, partSize) ==> Transferable(p))
      && forall p: nat :: !progressRaises(p) && !interrupts(p)
    }

    lemma NothingRaised(error: Uploads.Error, results: seq<Result<(nat, bool), Error>>, progressRaises: nat -> bool,
                        interrupts: nat -> bool, trace: seq<Uploads.Event>, concurrency: nat, work: Uploads.Work)
      requires Uploads.Lawful(trace, concurrency, work) && Uploads.After(trace).cause == Some(error)
      requires work.items == |results| && !work.iteratorRaises && work.completedRaises == progressRaises
      requires work.interrupts == interrupts
      requires forall p :: 0 <= p < |results| && work.taskRaises(p) ==> results[p].Failure?
      requires partSize > 0 && |results| == PartCount(size, partSize)
      requires forall p :: 0 <= p < |results| && Transferable(p) ==> results[p].Success?
      ensures !Unhindered(progressRaises, interrupts)
    {
      Uploads.CauseJustified(trace, concurrency, work);
      var k :| 0 <= k < |trace| && Uploads.StoppedAt(trace, k, error, work);
      Uploads.AlwaysSound(trace, concurrency, work, k);
      if error.TaskRaised? {
        assert !Transferable(error.task);
      }
    }

    /**
     Transfers the parts with bounded concurrency, in any order of completion. The
     upload is published only if every part is with the server and counted once.
     */
    method Run(concurrency: nat, progressRaises: nat -> bool, interrupts: nat -> bool) returns (r: Result<(), Error>)
      requires partSize > 0 && concurrency >= 1 && progress == Progress(0, 0, 0) && log == []
      requires forall p :: p in receipts ==> p < PartCount(size, partSize)
      modifies this`progress, this`log
      ensures r.Success? ==> Complete()
      ensures forall c :: c in log ==> c.completed == c.transferred + c.reused <= size
      ensures old(Unhindered(progressRaises, interrupts)) ==> r.Success?
    {
      var results := TransferParts();
      var work := Uploads.Work(|results|, false, (p: nat) => p < |results| && results[p].Failure?, progressRaises,
                               interrupts);
      var uploader := new Uploads.Uploader(work, concurrency);
      var error := uploader.Run();
      if error.Some? {
        NothingRaised(error.value, results, progressRaises, interrupts, uploader.trace, concurrency, work);
      }
      Account(uploader.trace, results, concurrency, work);
      if error.Some? {
        return Failure(Stopped(error.value));
      }
      AllCounted(uploader.trace, concurrency, work);
      forall p: nat | p < PartCount(size, partSize)
        ensures PartOk(p)
      {
        assert !work.taskRaises(p);
      }
      return Success(());
    }

    /**
     What is published is the file: with an honest server, digests that tell bytes
     apart and a file that is not rewritten, the stored parts put together are it.
     */
    lemma PublishedIsFile(file: Bytes, stored: map<nat, Bytes>, sent: map<nat, Bytes>, initial: seq<Receipt>)
      requires Complete() && size == |file| && Transfers.Injective(sha256)
      requires forall p: nat :: p < PartCount(size, partSize) ==> p in sent && sent[p] == Slice(file, p, partSize)
      requires forall p: nat :: p < PartCount(size, partSize) ==> read(p) == Some(Slice(file, p, partSize))
      requires server.Honest(stored, sent, initial, sha256)
      requires forall p :: p in receipts ==> receipts[p] in initial && receipts[p].number == p
      ensures forall p: nat :: p < PartCount(size, partSize) ==> p in stored
      ensures Sequences.Flatten(StoredParts(stored, PartCount(size, partSize))) == file
    {
      var n := PartCount(size, partSize);
      forall p: nat | p < n
        ensures p in stored && stored[p] == Slice(file, p, partSize)
      {
        assert PartOk(p);
        UploadedIsStored(p, read(p).value, receipts, initial, server, sha256, stored, sent);
      }
      StoredAreSlices(file, stored, n, partSize);
      PartsMakeFile(file, partSize);
    }
  }

  function StoredParts(stored: map<nat, Bytes>, n: nat): seq<Bytes> {
    if n == 0 then []
    else StoredParts(stored, n - 1) + if n - 1 in stored then [stored[n - 1]] else []
  }

  lemma {:induction false} StoredAreSlices(file: Bytes, stored: map<nat, Bytes>, n: nat, partSize: nat)
    requires partSize > 0 && n <= PartCount(|file|, partSize)
    requires forall p: nat :: p < n ==> p in stored && stored[p] == Slice(file, p, partSize)
    ensures StoredParts(stored, n) == Slices(file, n, partSize)
  {
    if n > 0 {
      StoredAreSlices(file, stored, n - 1, partSize);
    }
  }

  /** A session is usable if its parts have a permitted size and its receipts are of distinct parts. */
  method Open(partSize: int, parts: seq<Receipt>, size: nat, sha256: Bytes -> string, server: Server,
              read: nat -> Option<Bytes>, cancelled: (nat, nat) -> bool)
    returns (r: Result<Upload, Error>)
    ensures r.Success? <==> 0 < partSize <= 64 * 1024 * 1024 && ReceiptsValid(parts, PartCount(size, partSize))
    ensures r.Success? ==>
      && fresh(r.value) && r.value.size == size && r.value.partSize == partSize && r.value.sha256 == sha256
      && r.value.server == server && r.value.read == read && r.value.cancelled == cancelled
      && r.value.progress == Progress(0, 0, 0) && r.value.log == []
      && (forall i :: 0 <= i < |parts| ==> parts[i].number in r.value.receipts)
      && forall p :: p in r.value.receipts ==>
        p < PartCount(size, partSize) && r.value.receipts[p] in parts && r.value.receipts[p].number == p
  {
    if partSize <= 0 || partSize > MAXIMUM_PART_BYTES {
      return Failure(PartSizeInvalid);
    }
    var receipts := LoadReceipts(parts, PartCount(size, partSize));
    if receipts.Failure? {
      return Failure(receipts.error);
    }
    var upload := new Upload(size, partSize, sha256, server, read, cancelled, receipts.value);
    return Success(upload);
  }
}
