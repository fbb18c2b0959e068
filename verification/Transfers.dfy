// Resumable download of one artifact into a private workspace that holds a
// growing body and a record of what is being downloaded.
//
// The server is arbitrary; a true server answers with slices of one
// representation per digest. Every intermediate state of the workspace is
// recorded, because a process may stop after any of them and resume later.

module Transfers {
  import opened Outcomes
  import Sequences

  type Bytes = seq<bv8>
  type Digest = string

  const ATTEMPTS: nat := 4
  const CHUNK_BYTES: nat := 8 * 1024 * 1024

  predicate RetryableStatus(code: int) {
    code in {408, 429, 500, 502, 503, 504, 520, 522, 523, 524}
  }

  /** What one attempt at an idempotent request does. */
  datatype Attempt<T> = Answered(value: T) | Rejected(code: int) | Transient {
    predicate Retryable() { Transient? || (Rejected? && RetryableStatus(code)) }
  }

  datatype Outcome<T> = Finished(attempt: Attempt<T>) | Cancelled

  /** What is worth another attempt: no connection, or one of these statuses. */
  lemma RetryableMeaning<T>(a: Attempt<T>)
    ensures a.Retryable() <==>
      a == Transient || exists code :: a == Rejected(code) && code in {408, 429, 500, 502, 503, 504, 520, 522, 523, 524}
  {
  }

  /**
   Makes at most four attempts, stops at the first that is not worth repeating, and
   looks for a cancellation before each one and during each pause.
   */
  method RetryRequest<T>(action: nat -> Attempt<T>, cancelledBefore: nat -> bool, cancelledIn: nat -> bool)
    returns (r: Outcome<T>, made: nat)
    ensures made <= 4
    ensures forall k: nat :: k < made - 1 ==> action(k).Retryable() && !cancelledIn(k)
    ensures forall k: nat :: k < made ==> !cancelledBefore(k)
    ensures r.Finished? ==> made > 0 && r.attempt == action(made - 1) && (r.attempt.Retryable() ==> made == 4)
    ensures r.Cancelled? ==>
      && made < 4 && (made > 0 ==> action(made - 1).Retryable())
      && (cancelledBefore(made) || (made > 0 && cancelledIn(made - 1)))
  {
    made := 0;
    while made < ATTEMPTS
      invariant made < ATTEMPTS
      invariant forall k: nat :: k < made ==> action(k).Retryable() && !cancelledIn(k) && !cancelledBefore(k)
    {
      if cancelledBefore(made) {
        return Cancelled, made;
      }
      var attempt := action(made);
      made := made + 1;
      if !attempt.Retryable() || made == ATTEMPTS {
        return Finished(attempt), made;
      }
      if cancelledIn(made - 1) {
        return Cancelled, made;
      }
    }
    assert false;
  }

  datatype Record = Record(size: nat, sha256: Digest, mediaType: string, etag: Option<string>)

  /** The workspace on disk. */
  datatype Disk = Disk(body: Option<Bytes>, metadata: Option<Record>) {
    function Length(): nat { if body.None? then 0 else |body.value| }
    function Content(): Bytes { if body.None? then [] else body.value }
  }

  datatype Range = Range(start: nat, end: nat, total: nat)

  /** One response: a failure before the body, or a body in chunks that may break off. */
  datatype Reply =
    | NetworkFailure
    | Status(code: int)
    | Body(range: Option<Range>, partial: bool, encoded: bool, length: Option<int>, digest: Option<Digest>,
           mediaType: string, etag: Option<string>, chunks: seq<Bytes>, breaks: bool)

  datatype Error =
    | Integrity
    | BodyMissing
    | BodyTooLong
    | Refused(code: int)
    | Malformed
    | IdentityChanged
    | Overrun
    | Exhausted

  function Joined(chunks: seq<Bytes>): Bytes {
    if chunks == [] then [] else Joined(chunks[..|chunks| - 1]) + chunks[|chunks| - 1]
  }

  // --------------------------------------------------------------- safety

  /** The body never exceeds the recorded size. */
  predicate Fits(d: Disk) {
    d.metadata.Some? ==> d.Length() <= d.metadata.value.size
  }

  /** The body is a prefix of a representation with the recorded size and digest. */
  ghost predicate PrefixOfOne(d: Disk, sha256: Bytes -> Digest) {
    d.metadata.Some? ==> exists whole :: Represents(whole, d.metadata.value, sha256) && d.Content() <= whole
  }

  predicate Represents(whole: Bytes, r: Record, sha256: Bytes -> Digest) {
    |whole| == r.size && sha256(whole) == r.sha256
  }

  /** A process stopped between recording an empty artifact and creating its body. */
  predicate Unresumable(d: Disk) {
    d.body.None? && d.metadata.Some? && d.metadata.value.size == 0
  }

  /** Two records of the same thing. */
  predicate SameIdentity(a: Option<Record>, b: Option<Record>) {
    a.Some? && b.Some? ==>
      a.value.size == b.value.size && a.value.sha256 == b.value.sha256 && a.value.mediaType == b.value.mediaType
  }

  ghost predicate Injective(sha256: Bytes -> Digest) {
    forall x, y :: sha256(x) == sha256(y) ==> x == y
  }

  /** A true server: the body is a slice of a representation that its headers describe. */
  ghost predicate TrueSlice(r: Reply, sha256: Bytes -> Digest) {
    r.Body? && r.digest.Some? ==>
      exists whole: Bytes :: sha256(whole) == r.digest.value && SliceOf(r, whole)
  }

  predicate SliceOf(r: Reply, whole: Bytes)
    requires r.Body?
  {
    if r.partial then
      r.range.Some? ==>
        && r.range.value.total == |whole|
        && (r.range.value.start <= |whole| ==> Joined(r.chunks) <= whole[r.range.value.start..])
    else
      (r.length.Some? ==> r.length.value == |whole|) && Joined(r.chunks) <= whole
  }

  /** The record that the headers of a response announce, or why the response is refused. */
  function Announced(r: Reply, offset: nat, state: Option<Record>): (a: Result<Record, Error>)
    requires r.Body?
    ensures a.Failure? ==> a.error in {Malformed, IdentityChanged}
    ensures a.Success? && state.Some? ==> SameIdentity(Some(a.value), state)
    ensures a.Success? ==> r.digest == Some(a.value.sha256) && r.length.Some? && r.length.value >= 0
    ensures a.Success? && r.partial ==>
      && 1 <= r.length.value <= 0x80_0000 && offset + r.length.value <= a.value.size
      && r.range.Some? && r.range.value.start == offset
      && r.range.value.total == a.value.size
    ensures a.Success? && !r.partial ==> a.value.size == r.length.value
  {
    if r.encoded || r.length.None? || r.length.value < 0 then Failure(Malformed)
    else if r.partial && r.range.None? then Failure(Malformed)
    else if r.partial && !RangeMatches(r.range.value, offset, r.length.value) then Failure(Malformed)
    else if r.digest.None? then Failure(Malformed)
    else
      var incoming := Record(if r.partial then r.range.value.total else r.length.value, r.digest.value, r.mediaType,
                             r.etag);
      if state.Some? && !(SameIdentity(Some(incoming), state) && (state.value.etag.Some? ==>
        r.etag == state.value.etag))
      then Failure(IdentityChanged)
      else Success(incoming)
  }

  predicate RangeMatches(range: Range, offset: nat, length: int) {
    range.start == offset && range.start <= range.end < range.total &&
      range.end - range.start + 1 == length <= CHUNK_BYTES
  }

  /** A body as it was asked for: the bytes from the offset on, at most eight MiB, up to a given end; or everything. */
  predicate AsAsked(r: Reply, offset: nat)
    requires r.Body?
  {
    && !r.encoded && r.digest.Some? && r.length.Some? && r.length.value >= 0
    && (r.partial ==>
          && r.range.Some? && r.length.value <= 8 * 1024 * 1024
          && r.range.value.start == offset && offset + r.length.value - 1 == r.range.value.end
          && offset <= r.range.value.end < r.range.value.total)
  }

  /** What a body announces. */
  function Announcement(r: Reply, offset: nat): Record
    requires r.Body? && AsAsked(r, offset)
  {
    Record(if r.partial then r.range.value.total else r.length.value, r.digest.value, r.mediaType, r.etag)
  }

  /** Exactly a body as it was asked for is accepted, if it announces what is recorded, or nothing is. */
  lemma AnnouncedExactly(r: Reply, offset: nat, state: Option<Record>)
    requires r.Body?
    ensures var a := Announced(r, offset, state);
      && (a.Success? <==> AsAsked(r, offset) && (state.Some? ==>
            var d, s := Announcement(r, offset), state.value;
            && d.size == s.size && d.sha256 == s.sha256 && d.mediaType == s.mediaType
            && (s.etag.Some? ==> d.etag == s.etag)))
      && (a.Success? ==> a.value == Announcement(r, offset))
      && (AsAsked(r, offset) && a.Failure? ==> a.error == IdentityChanged)
      && (!AsAsked(r, offset) ==> a == Failure(Malformed))
  {
  }

  /** A body that announces the requested part of `whole`, or all of it, and holds nothing else. */
  predicate Serves(r: Reply, offset: nat, whole: Bytes, record: Record) {
    && r.Body? && !r.encoded
    && r.digest == Some(record.sha256) && r.mediaType == record.mediaType && r.etag == record.etag
    && if r.partial then
         && offset < |whole|
         && var end := if offset + 0x80_0000 < |whole| then offset + 0x80_0000 else |whole|;
            r.range == Some(Range(offset, end - 1, |whole|)) && r.length == Some(end - offset)
            && Joined(r.chunks) <= whole[offset..end]
       else r.length == Some(|whole|) && Joined(r.chunks) <= whole
  }

  /** The requested part of `whole`, or all of it, to its end. */
  predicate FullAnswer(r: Reply, offset: nat, whole: Bytes, record: Record) {
    if whole != [] && offset >= |whole| then !r.Body?
    else Serves(r, offset, whole, record) && !r.breaks && |Joined(r.chunks)| == r.length.value
  }

  /** No connection, a status that asks to try again, or a body that is cut short. */
  predicate Hiccup(r: Reply, offset: nat, whole: Bytes, record: Record) {
    match r
    case NetworkFailure => true
    case Status(code) => code in {408, 429, 500, 502, 503, 504, 520, 522, 523, 524}
    case Body(_, _, _, _, _, _, _, _, _) => Serves(r, offset, whole, record)
  }

  /** A request from an offset, when `known` was recorded, and its reply. */
  datatype Exchange = Exchange(offset: nat, known: Option<Record>, reply: Reply)

  /** A temporary failure: no connection, a status that asks to try again, or an accepted body that came short. */
  predicate Temporary(x: Exchange) {
    match x.reply
    case NetworkFailure => true
    case Status(code) => code in {408, 429, 500, 502, 503, 504, 520, 522, 523, 524}
    case Body(_, _, _, length, _, _, _, chunks, breaks) =>
      && Announced(x.reply, x.offset, x.known).Success? && |Joined(chunks)| <= length.value
      && (breaks || |Joined(chunks)| < length.value)
  }

  /** Any other failure, which ends the download. */
  function Ends(x: Exchange): Option<Error> {
    match x.reply
    case NetworkFailure => None
    case Status(code) => if Temporary(x) then None else Some(Refused(code))
    case Body(_, _, _, length, _, _, _, chunks, _) =>
      var announced := Announced(x.reply, x.offset, x.known);
      if announced.Failure? then Some(announced.error)
      else if |Joined(chunks)| > length.value then Some(Overrun) else None
  }

  function Temporaries(log: seq<Exchange>): nat {
    if log == [] then 0
    else Temporaries(log[..|log| - 1]) + if Temporary(log[|log| - 1]) then 1 else 0
  }

  /** What a log says of its last exchange: the error that ends the download. */
  function LastEnds(log: seq<Exchange>): Option<Error> {
    if log == [] then None else Ends(log[|log| - 1])
  }

  /** The replies are the server's to the requests from the first on, and none but the last ends the download. */
  ghost predicate Logged(log: seq<Exchange>, first: nat, server: (nat, nat) -> Reply) {
    log != [] ==>
      var n := |log| - 1;
      Logged(log[..n], first, server) && LastEnds(log[..n]).None? && log[n].reply == server(first + n, log[n].offset)
  }

  /** Only replies to these requests failed for a while. */
  ghost predicate Excused(log: seq<Exchange>, first: nat, bad: set<nat>) {
    log != [] ==>
      var n := |log| - 1;
      Excused(log[..n], first, bad) && (Temporary(log[n]) ==> first + n in bad)
  }

  lemma {:induction false} LoggedMeaning(log: seq<Exchange>, first: nat, server: (nat, nat) -> Reply)
    ensures Logged(log, first, server) <==>
      && (forall k: nat :: k < |log| ==> log[k].reply == server(first + k, log[k].offset))
      && forall k: nat :: k < |log| - 1 ==> Ends(log[k]).None?
  {
    if log != [] {
      var n := |log| - 1;
      LoggedMeaning(log[..n], first, server);
      assert forall k: nat :: k < n ==> log[..n][k] == log[k];
      assert n > 0 ==> log[..n][n - 1] == log[n - 1];
    }
  }

  lemma LogNext(log: seq<Exchange>, x: Exchange, first: nat, server: (nat, nat) -> Reply, bad: set<nat>)
    ensures Temporaries(log + [x]) == Temporaries(log) + (if Temporary(x) then 1 else 0)
    ensures LastEnds(log + [x]) == Ends(x)
    ensures Logged(log, first, server) && LastEnds(log).None? && x.reply == server(first + |log|, x.offset) ==>
      Logged(log + [x], first, server)
    ensures Excused(log, first, bad) && (Temporary(x) ==> first + |log| in bad) ==> Excused(log + [x], first, bad)
  {
    assert (log + [x])[..|log|] == log;
  }

  /** There are no more temporary failures than requests that are excused. */
  lemma {:induction false} TemporariesWithin(log: seq<Exchange>, first: nat, bad: set<nat>)
    requires Excused(log, first, bad)
    ensures Temporaries(log) <= |bad|
  {
    if log != [] {
      var n := |log| - 1;
      if Temporary(log[n]) {
        ExcusedWithout(log[..n], first, bad, first + n);
        TemporariesWithin(log[..n], first, bad - {first + n});
      } else {
        TemporariesWithin(log[..n], first, bad);
      }
    }
  }

  lemma {:induction false} ExcusedWithout(log: seq<Exchange>, first: nat, bad: set<nat>, later: nat)
    requires Excused(log, first, bad) && later >= first + |log|
    ensures Excused(log, first, bad - {later})
  {
    if log != [] {
      ExcusedWithout(log[..|log| - 1], first, bad, later);
    }
  }

  /** The body extended by any part of the response stays a prefix of `whole`. */
  ghost predicate Extends(whole: Bytes, r: Reply, d: Disk, record: Record, sha256: Bytes -> Digest)
    requires r.Body?
  {
    && Represents(whole, record, sha256) && d.Content() <= whole
    && Joined(r.chunks) <= whole[if r.partial then d.Length() else 0..]
  }

  /** A response of a true server that is accepted is a slice of the representation on disk. */
  lemma AcceptedExtends(r: Reply, d: Disk, record: Record, sha256: Bytes -> Digest)
    requires r.Body? && Announced(r, d.Length(), d.metadata) == Success(record)
    requires d.metadata.None? ==> d.body.None?
    requires TrueSlice(r, sha256) && Injective(sha256) && PrefixOfOne(d, sha256)
    ensures exists whole :: Extends(whole, r, d, record, sha256)
  {
    var whole :| sha256(whole) == r.digest.value && SliceOf(r, whole);
    if d.metadata.Some? {
      var other :| Represents(other, d.metadata.value, sha256) && d.Content() <= other;
      assert sha256(other) == sha256(whole);
    }
    assert whole[0..] == whole;
    assert Represents(whole, record, sha256);
    assert Extends(whole, r, d, record, sha256);
  }

  /** What is written before the first byte of the response is safe. */
  lemma ExtendsPrefix(whole: Bytes, r: Reply, d: Disk, record: Record, sha256: Bytes -> Digest)
    requires r.Body? && Extends(whole, r, d, record, sha256)
    ensures PrefixOfOne(d.(metadata := Some(record)), sha256)
    ensures PrefixOfOne(Opened(r, d, record), sha256)
    ensures Opened(r, d, record).Content() <= whole
    ensures Joined(r.chunks) <= whole[Opened(r, d, record).Length()..]
  {
    assert d.(metadata := Some(record)).Content() <= whole;
    assert Opened(r, d, record).Content() <= whole;
  }

  /** The workspace once the body is open: for appending, or emptied for a complete response. */
  function Opened(r: Reply, d: Disk, record: Record): Disk
    requires r.Body?
  {
    Disk(Some(if r.partial then d.Content() else []), Some(record))
  }

  /** What a crash leaves of a state: the record, and some of the body if there was one. */
  function Torn(d: Disk, kept: nat): Disk
    requires kept <= d.Length()
  {
    if d.body.None? then d else d.(body := Some(d.body.value[..kept]))
  }

  lemma PrefixTransitive(a: Bytes, b: Bytes, c: Bytes)
    requires a <= b && b <= c
    ensures a <= c
  {
  }

  /** A crash may lose any tail of the body; what is left is as good. */
  lemma TruncationSafe(d: Disk, n: nat, sha256: Bytes -> Digest)
    requires d.body.Some? && n <= |d.body.value|
    ensures Fits(d) ==> Fits(d.(body := Some(d.body.value[..n])))
    ensures PrefixOfOne(d, sha256) ==> PrefixOfOne(d.(body := Some(d.body.value[..n])), sha256)
  {
    if d.metadata.Some? && PrefixOfOne(d, sha256) {
      var whole :| Represents(whole, d.metadata.value, sha256) && d.Content() <= whole;
      assert d.body.value[..n] <= whole;
    }
  }

  lemma AppendPrefix(body: Bytes, chunks: seq<Bytes>, k: nat, whole: Bytes)
    requires |body| <= |whole| && body <= whole && Joined(chunks) <= whole[|body|..] && k <= |chunks|
    ensures body + Joined(chunks[..k]) <= whole
  {
    JoinedPrefix(chunks, k);
    var part := Joined(chunks[..k]);
    assert part <= whole[|body|..];
    assert whole == body + whole[|body|..];
  }

  /** One more chunk. */
  lemma NextChunk(body: Bytes, chunks: seq<Bytes>, k: nat)
    requires k < |chunks|
    ensures body + Joined(chunks[..k]) + chunks[k] == body + Joined(chunks[..k + 1])
    ensures |Joined(chunks[..k + 1])| == |Joined(chunks[..k])| + |chunks[k]| <= |Joined(chunks)|
  {
    assert chunks[..k + 1][..k] == chunks[..k];
    Sequences.ConcatAssociative(body, Joined(chunks[..k]), chunks[k]);
    JoinedPrefix(chunks, k + 1);
  }

  lemma {:induction false} JoinedPrefix(chunks: seq<Bytes>, k: nat)
    requires k <= |chunks|
    ensures Joined(chunks[..k]) <= Joined(chunks)
  {
    if k == |chunks| {
      assert chunks[..k] == chunks;
    } else {
      var init := chunks[..|chunks| - 1];
      JoinedPrefix(init, k);
      assert init[..k] == chunks[..k];
    }
  }

  /** What serves a representation is a slice of it. */
  lemma ServesSlice(r: Reply, offset: nat, whole: Bytes, record: Record, sha256: Bytes -> Digest)
    requires Serves(r, offset, whole, record) && Represents(whole, record, sha256)
    ensures TrueSlice(r, sha256)
  {
    assert SliceOf(r, whole) by {
      if r.partial {
        assert r.range.value.start == offset;
      }
    }
  }

  /** What serves a representation is accepted, and ends nothing. */
  lemma ServesAccepted(x: Exchange, whole: Bytes, record: Record, sha256: Bytes -> Digest)
    requires Serves(x.reply, x.offset, whole, record) && Represents(whole, record, sha256)
    requires x.known.Some? ==> x.known.value == record
    ensures Announced(x.reply, x.offset, x.known) == Success(record) && Ends(x).None?
    ensures !Temporary(x) <==> !x.reply.breaks && |Joined(x.reply.chunks)| == x.reply.length.value
  {
  }

  /** A prefix of a representation that has its length is that representation. */
  lemma PrefixOfFullLength(d: Disk, sha256: Bytes -> Digest)
    requires PrefixOfOne(d, sha256) && d.metadata.Some? && d.Length() == d.metadata.value.size
    ensures Represents(d.Content(), d.metadata.value, sha256)
  {
    var whole :| Represents(whole, d.metadata.value, sha256) && d.Content() <= whole;
    assert d.Content() == whole;
  }

  /** A reply with a body that is accepted, and the state of the disk when its identity was recorded. */
  predicate Accepts(r: Reply, d: Disk) {
    r.Body? && Announced(r, d.Length(), d.metadata).Success?
  }

  function Recorded(r: Reply, d: Disk): Disk
    requires Accepts(r, d)
  {
    d.(metadata := Some(Announced(r, d.Length(), d.metadata).value))
  }

  /** A true server may answer completely: one byte of two was kept, both are sent again, and the byte is discarded. */
  lemma CompleteAnswerDiscards(sha256: Bytes -> Digest, a: bv8, b: bv8)
    ensures
      var d := Disk(Some([a]), Some(Record(2, sha256([a, b]), "", None)));
      var r := Body(None, false, false, Some(2), Some(sha256([a, b])), "", None, [[a, b]], false);
      && TrueSlice(r, sha256) && PrefixOfOne(d, sha256) && Accepts(r, d)
      && Opened(r, d, Announced(r, d.Length(), d.metadata).value).Content() == []
  {
    var r := Body(None, false, false, Some(2), Some(sha256([a, b])), "", None, [[a, b]], false);
    assert r.chunks[..0] == [] && Joined(r.chunks) == [a, b];
    assert SliceOf(r, [a, b]);
    assert Represents([a, b], Record(2, sha256([a, b]), "", None), sha256) && [a] <= [a, b];
  }

  // -------------------------------------------------------------- workspace

  datatype Step = Advanced | Retry | Failed(error: Error)

  class Workspace {
    const sha256: Bytes -> Digest
    /** What the server answers to the n-th request, at an offset. */
    const server: (nat, nat) -> Reply
    /** What an earlier process left. */
    const start: Disk
    var disk: Disk
    var requests: nat
    /** Every state the disk was in, and what the first record said. */
    ghost var trace: seq<Disk>
    ghost var identity: Option<Record>
    /** Every request of this process, and its reply. */
    ghost var log: seq<Exchange>

    constructor (sha256: Bytes -> Digest, server: (nat, nat) -> Reply, disk: Disk)
      ensures this.sha256 == sha256 && this.server == server && start == disk && this.disk == disk && trace == [disk]
      ensures Safe() && identity == disk.metadata && requests == 0 && log == []
    {
      this.sha256, this.server, this.start, this.disk, requests := sha256, server, disk, disk, 0;
      trace, identity, log := [disk], disk.metadata, [];
    }

    /** What every state of the disk satisfies, if the first one did; and all records are of one thing. */
    ghost predicate Safe()
      reads this
    {
      && trace != [] && trace[0] == start && trace[|trace| - 1] == disk
      && AllKept(trace, identity)
      && (Trusted() && Ranged() ==> Growing(trace))
    }

    /** From one recorded state to the next the body only grows. */
    ghost predicate Growing(states: seq<Disk>)
      decreases |states|
    {
      |states| >= 2 ==>
        var n := |states| - 1;
        Growing(states[..n]) && (states[n - 1].metadata.Some? ==> states[n - 1].Content() <= states[n].Content())
    }

    /** What was recorded is never lost between two states of a growing workspace. */
    lemma {:induction false} GrowingKeeps(states: seq<Disk>, i: nat, j: nat)
      requires Growing(states) && i <= j < |states|
      requires forall k :: i <= k < j ==> states[k].metadata.Some?
      ensures states[i].Content() <= states[j].Content()
      decreases |states|
    {
      var n := |states| - 1;
      if j < n {
        GrowingKeeps(states[..n], i, j);
      } else if i < j {
        GrowingKeeps(states[..n], i, j - 1);
        PrefixTransitive(states[i].Content(), states[j - 1].Content(), states[j].Content());
      }
    }

    /** What one state of the disk satisfies. */
    ghost predicate Kept(d: Disk, identity: Option<Record>) {
      && (Fits(start) ==> Fits(d))
      && (Trusted() ==> PrefixOfOne(d, sha256))
      && (d.metadata.Some? ==> identity.Some? && SameIdentity(d.metadata, identity))
    }

    ghost predicate AllKept(states: seq<Disk>, identity: Option<Record>)
      decreases |states|
    {
      states != [] ==> Kept(states[|states| - 1], identity) && AllKept(states[..|states| - 1], identity)
    }

    lemma {:induction false} EveryStateKept(states: seq<Disk>, identity: Option<Record>)
      requires AllKept(states, identity)
      ensures forall d :: d in states ==> Kept(d, identity)
      decreases |states|
    {
      if states != [] {
        EveryStateKept(states[..|states| - 1], identity);
      }
    }

    /** The first record fixes the identity. */
    lemma {:induction false} IdentityFound(states: seq<Disk>, record: Option<Record>)
      requires AllKept(states, None)
      ensures AllKept(states, record)
      decreases |states|
    {
      if states != [] {
        IdentityFound(states[..|states| - 1], record);
      }
    }

    /**
     Every request is answered in full, except that at most three of them may fail for
     a while; and what an earlier process left is of the same thing.
     */
    ghost predicate Healthy(whole: Bytes, record: Record, bad: set<nat>) {
      && Injective(sha256) && Represents(whole, record, sha256) && |bad| <= 3
      && (forall n: nat, offset: nat :: Answers(n, offset, whole, record, bad))
      && (start.metadata.Some? ==> start.metadata.value == record && start.Content() <= whole)
    }

    ghost predicate Answers(n: nat, offset: nat, whole: Bytes, record: Record, bad: set<nat>) {
      || FullAnswer(server(n, offset), offset, whole, record)
      || (n in bad && Hiccup(server(n, offset), offset, whole, record))
    }

    /** An exchange with a healthy server. */
    lemma HealthyExchange(x: Exchange, n: nat, whole: Bytes, record: Record, bad: set<nat>)
      requires Healthy(whole, record, bad) && x.reply == server(n, x.offset)
      requires (x.known.Some? ==> x.known.value == record) && (whole == [] || x.offset < |whole|)
      ensures Ends(x).None? && (Temporary(x) ==> n in bad)
      ensures x.reply.Body? ==> Announced(x.reply, x.offset, x.known) == Success(record)
    {
      assert Answers(n, x.offset, whole, record, bad);
      if x.reply.Body? {
        ServesAccepted(x, whole, record, sha256);
      }
    }

    /** The server answers ranges and never starts over with the complete body. */
    ghost predicate Ranged() {
      forall n: nat, offset: nat :: server(n, offset).Body? ==> server(n, offset).partial
    }

    /** A true server, and a first state that a true server left. */
    ghost predicate Trusted() {
      && Fits(start) && PrefixOfOne(start, sha256)
      && Injective(sha256) && forall n: nat, offset: nat :: TrueSlice(server(n, offset), sha256)
    }

    lemma HealthyIsTrusted(whole: Bytes, record: Record, bad: set<nat>)
      requires Healthy(whole, record, bad)
      ensures Trusted()
    {
      forall n: nat, offset: nat ensures TrueSlice(server(n, offset), sha256) {
        assert Answers(n, offset, whole, record, bad);
        if server(n, offset).Body? {
          ServesSlice(server(n, offset), offset, whole, record, sha256);
        }
      }
    }

    /**
     A process may stop at any state of the disk and lose any tail of the body.
     Whoever resumes finds what this process was promised, and cannot go on exactly if
     an empty artifact was recorded and its body not yet created.
     */
    lemma Resumable(crash: Disk, kept: nat)
      requires Safe() && crash in trace && kept <= crash.Length()
      ensures
        var left := Torn(crash, kept);
        && (Fits(start) ==> Fits(left))
        && (Trusted() ==> Fits(left) && PrefixOfOne(left, sha256))
        && (left.metadata.Some? ==> SameIdentity(left.metadata, identity))
        && (Unresumable(left) <==> Unresumable(crash))
    {
      EveryStateKept(trace, identity);
      if crash.body.Some? {
        TruncationSafe(crash, kept, sha256);
      }
    }

    method Write(d: Disk)
      requires Safe()
      requires Fits(start) ==> Fits(d)
      requires Trusted() ==> PrefixOfOne(d, sha256)
      requires d.metadata.Some? && identity.Some? ==> SameIdentity(d.metadata, identity)
      requires Trusted() && Ranged() && disk.metadata.Some? ==> disk.Content() <= d.Content()
      modifies this`disk, this`trace, this`identity
      ensures Safe() && disk == d && trace == old(trace) + [d]
      ensures identity == if old(identity).None? then d.metadata else old(identity)
    {
      assert (trace + [d])[..|trace|] == trace;
      if identity.None? {
        IdentityFound(trace, d.metadata);
        identity := d.metadata;
      }
      disk := d;
      trace := trace + [d];
    }

    /** Appends the chunks of an accepted response to the body. */
    method ReceiveBody(r: Reply, length: nat, ghost whole: Bytes) returns (step: Step)
      requires r.Body? && Safe() && disk.metadata.Some? && disk.body.Some? && identity.Some?
      requires Fits(start) ==> disk.Length() + length <= disk.metadata.value.size
      requires Trusted() ==> Represents(whole, disk.metadata.value, sha256) && disk.Content() <= whole
      requires Trusted() ==> Joined(r.chunks) <= whole[disk.Length()..]
      modifies this`disk, this`trace, this`identity
      ensures Safe() && disk.metadata == old(disk.metadata) && disk.body.Some?
      ensures old(trace) <= trace
      ensures step.Advanced? ==> disk.Length() == old(disk.Length()) + length
      ensures identity == old(identity)
      ensures step == if |Joined(r.chunks)| > length then Failed(Overrun)
                      else if r.breaks || |Joined(r.chunks)| < length then Retry else Advanced
    {
      var received := 0;
      var k := 0;
      ghost var start := disk.body.value;
      assert r.chunks[..0] == [] && start + [] == start;
      while k < |r.chunks|
        invariant 0 <= k <= |r.chunks| && Safe() && old(trace) <= trace && identity == old(identity)
        invariant disk.metadata == old(disk.metadata) && disk.body == Some(start + Joined(r.chunks[..k]))
        invariant received == |Joined(r.chunks[..k])| <= length
      {
        NextChunk(start, r.chunks, k);
        JoinedPrefix(r.chunks, k + 1);
        if received + |r.chunks[k]| > length {
          return Failed(Overrun);
        }
        var grown := disk.body.value + r.chunks[k];
        if Trusted() {
          AppendPrefix(start, r.chunks, k + 1, whole);
        }
        Write(disk.(body := Some(grown)));
        received := received + |r.chunks[k]|;
        k := k + 1;
      }
      assert r.chunks[..k] == r.chunks;
      if r.breaks || received != length {
        return Retry;
      }
      return Advanced;
    }

    /** What the next request is, and its reply. */
    ghost function Next(): Exchange
      reads this
    {
      Exchange(disk.Length(), disk.metadata, server(requests, disk.Length()))
    }

    /** One request: checks the headers, records the identity, then receives bytes. */
    method Fetch(state: Option<Record>) returns (after: Option<Record>, step: Step)
      requires Safe() && disk.metadata == state
      requires if state.None? then disk.body.None? && identity.None? else disk.Length() < state.value.size
      modifies this
      ensures log == old(log) + [old(Next())] && requests == old(requests) + 1
      ensures step.Retry? <==> Temporary(old(Next()))
      ensures Ends(old(Next())) == if step.Failed? then Some(step.error) else None
      ensures after == if old(Accepts(Next().reply, disk)) then Some(Announced(old(Next()).reply, old(Next()).offset,
                                                                               state).value) else state
      ensures after.None? ==> identity.None? && disk.body.None?
      ensures after.Some? && disk.body.None? ==> disk == old(disk)
      ensures Safe() && disk.metadata == after && old(trace) <= trace
      ensures state.Some? ==> after.Some? && after.value.size == state.value.size
      ensures step.Advanced? ==> after.Some? && (state.Some? ==> disk.Length() > old(disk.Length()))
      ensures old(Accepts(Next().reply, disk)) ==> Recorded(old(Next()).reply, old(disk)) in trace
    {
      var offset := disk.Length();
      var reply := server(requests, offset);
      log := log + [Next()];
      requests := requests + 1;
      match reply
      case NetworkFailure => return state, Retry;
      case Status(code) =>
        return state, if RetryableStatus(code) then Retry else Failed(Refused(code));
      case Body(_, partial, _, _, _, _, _, _, _) =>
        var announced := Announced(reply, offset, state);
        if announced.Failure? {
          return state, Failed(announced.error);
        }
        after := Some(announced.value);
        step := Accept(reply, announced.value);
    }

    /** Records what the response announces, then receives its bytes. */
    method Accept(reply: Reply, record: Record) returns (step: Step)
      requires Safe() && reply.Body? && Announced(reply, disk.Length(), disk.metadata) == Success(record)
      requires if disk.metadata.None? then disk.body.None? && identity.None? else identity.Some?
      requires Trusted() ==> TrueSlice(reply, sha256)
      requires Ranged() ==> reply.partial
      modifies this`disk, this`trace, this`identity
      ensures old(disk).(metadata := Some(record)) in trace
      ensures Safe() && disk.metadata == Some(record) && old(trace) <= trace && identity.Some?
      ensures disk.body.Some?
      ensures step.Advanced? ==>
        disk.Length() == (if reply.partial then old(disk.Length()) else 0) + reply.length.value
      ensures step == if |Joined(reply.chunks)| > reply.length.value then Failed(Overrun)
                      else if reply.breaks || |Joined(reply.chunks)| < reply.length.value then Retry else Advanced
    {
      ghost var whole := Open(reply, record);
      step := ReceiveBody(reply, reply.length.value, whole);
    }

    /** Records what the response announces and opens the body for it. */
    method Open(reply: Reply, record: Record) returns (ghost whole: Bytes)
      requires Safe() && reply.Body? && Announced(reply, disk.Length(), disk.metadata) == Success(record)
      requires if disk.metadata.None? then disk.body.None? && identity.None? else identity.Some?
      requires Trusted() ==> TrueSlice(reply, sha256)
      requires Ranged() ==> reply.partial
      modifies this`disk, this`trace, this`identity
      ensures old(disk).(metadata := Some(record)) in trace
      ensures Safe() && disk == Opened(reply, old(disk), record) && old(trace) <= trace && identity.Some?
      ensures old(disk.Content()) <= disk.Content() <==> reply.partial || old(disk.Content()) == []
      ensures Fits(start) ==> disk.Length() + reply.length.value <= record.size
      ensures Trusted() ==> Represents(whole, record, sha256) && disk.Content() <= whole
      ensures Trusted() ==> Joined(reply.chunks) <= whole[disk.Length()..]
    {
      whole := Continues(reply, record);
      var open := Opened(reply, disk, record);
      Write(disk.(metadata := Some(record)));
      Write(open);
    }

    /** The representation that an accepted response of a true server continues, before and after the body is open. */
    lemma Continues(reply: Reply, record: Record) returns (whole: Bytes)
      requires Safe() && reply.Body? && Announced(reply, disk.Length(), disk.metadata) == Success(record)
      requires disk.metadata.None? ==> disk.body.None?
      requires Trusted() ==> TrueSlice(reply, sha256)
      ensures Trusted() ==> PrefixOfOne(disk.(metadata := Some(record)), sha256)
      ensures Trusted() ==> PrefixOfOne(Opened(reply, disk, record), sha256)
      ensures Trusted() ==> Represents(whole, record, sha256) && Opened(reply, disk, record).Content() <= whole
      ensures Trusted() ==> Joined(reply.chunks) <= whole[Opened(reply, disk, record).Length()..]
      ensures Fits(start) ==> Fits(disk.(metadata := Some(record)))
      ensures Fits(start) ==> Opened(reply, disk, record).Length() + reply.length.value <= record.size
    {
      assert Kept(disk, identity);
      whole := [];
      if Trusted() {
        AcceptedExtends(reply, disk, record, sha256);
        whole :| Extends(whole, reply, disk, record, sha256);
        ExtendsPrefix(whole, reply, disk, record, sha256);
      }
    }

    /**
     Downloads until the body is complete. Every state of the disk on the way is
     safe. A body that is returned has the recorded length and digest, whatever
     the server did. The download gives up exactly at the fourth temporary failure,
     and with any other failure at once. A server with at most three temporary failures
     and full answers otherwise (`whole` and `record` name what it serves, and are
     arbitrary otherwise) gives its whole representation. Against a true server it
     never fails for a wrong or too long body; it discards what was kept only for a
     complete answer, so against one that answers ranges the body only grows. An empty
     artifact whose body was not yet created when a process stopped can never be
     resumed, and a fresh download goes through that state.
     */
    method Receive(ghost whole: Bytes, ghost record: Record, ghost bad: set<nat>) returns (r: Result<string, Error>)
      requires Safe() && |trace| == 1 && identity == disk.metadata && log == []
      modifies this
      ensures Safe() && old(trace) <= trace && Logged(log, old(requests), server)
      ensures r.Success? ==>
        disk.metadata.Some? && disk.body.Some? && Represents(disk.body.value, disk.metadata.value, sha256)
        && r.value == disk.metadata.value.mediaType
      ensures r == Failure(Exhausted) <==> Temporaries(log) == 4
      ensures Temporaries(log) <= 4
      ensures LastEnds(log).Some? ==> r == Failure(LastEnds(log).value)
      ensures r.Failure? && (r.error in {Malformed, IdentityChanged, Overrun} || r.error.Refused?) ==>
        LastEnds(log) == Some(r.error)
      ensures r == Failure(Integrity) ==> disk == Disk(None, None)
      ensures Healthy(whole, record, bad) && !Unresumable(start) ==>
        r == Success(record.mediaType) && disk.body == Some(whole)
      ensures Trusted() ==> r !in {Failure(Integrity), Failure(BodyTooLong)}
      ensures r == Failure(BodyMissing) <==> Unresumable(start)
      ensures r == Failure(BodyMissing) ==> disk == start
      ensures Trusted() && Ranged() ==> Growing(trace)
      ensures old(Opening()).Some? ==> old(Opening()).value in trace
    {
      var state := disk.metadata;
      ghost var first := requests;
      ghost var healthy := Healthy(whole, record, bad) && !Unresumable(start);
      if healthy {
        HealthyIsTrusted(whole, record, bad);
      }
      if state.None? {
        Write(disk.(body := None));
      }
      ghost var opening := Opening();
      var failures := 0;
      assert Unresumable(disk) <==> Unresumable(start);
      while true
        invariant old(trace) <= trace && Going(first, state, failures) && failures < ATTEMPTS
        invariant LastEnds(log).None?
        invariant healthy ==> (state.Some? ==> state.value == record) && Excused(log, first, bad)
        invariant Unresumable(disk) <==> Unresumable(start)
        invariant Unresumable(start) ==> disk == start
        invariant Underway(first, opening)
        decreases ATTEMPTS - failures,
                  if state.None? then 1 else 0,
                  if state.Some? && disk.Length() <= state.value.size then state.value.size - disk.Length() else 0
      {
        if state.Some? && disk.Length() == state.value.size {
          r := Complete(state.value);
          return;
        }
        assert Kept(disk, identity);
        if state.Some? && disk.Length() > state.value.size {
          return Failure(BodyTooLong);
        }
        var step;
        state, step := Ask(state, failures, first, opening, whole, record, bad, healthy);
        match step
        case Failed(error) => return Failure(error);
        case Retry =>
          failures := failures + 1;
          if failures >= ATTEMPTS {
            return Failure(Exhausted);
          }
        case Advanced =>
      }
    }

    /** The state in which a fresh download has recorded what its first reply announces, if it accepts that. */
    ghost function Opening(): Option<Disk>
      reads this
    {
      var reply := server(requests, 0);
      if start.metadata.None? && Accepts(reply, Disk(None, None)) then Some(Recorded(reply, Disk(None, None))) else None
    }

    /** Such a state, if the first reply makes one, is reached with the first request. */
    ghost predicate Underway(first: nat, opening: Option<Disk>)
      reads this
    {
      opening.Some? ==>
        && Accepts(server(first, 0), Disk(None, None)) && opening.value == Recorded(server(first, 0), Disk(None, None))
        && if requests == first then disk == Disk(None, None) else opening.value in trace
    }

    /** A download that was asked for `state` so far, with these temporary failures. */
    ghost predicate Going(first: nat, state: Option<Record>, failures: nat)
      reads this
    {
      && Safe() && Logged(log, first, server) && requests == first + |log|
      && disk.metadata == state && failures == Temporaries(log)
      && (state.None? ==> disk.body.None? && identity.None?)
    }

    /** A body of the recorded length: its digest decides. */
    method Complete(state: Record) returns (r: Result<string, Error>)
      requires Safe() && disk.metadata == Some(state) && disk.Length() == state.size
      modifies this`disk, this`trace, this`identity
      ensures Safe() && old(trace) <= trace
      ensures r == if old(disk).body.None? then Failure(BodyMissing)
                   else if sha256(old(disk).body.value) == state.sha256 then Success(state.mediaType)
                   else Failure(Integrity)
      ensures disk == if r == Failure(Integrity) then Disk(None, None) else old(disk)
      ensures Trusted() ==> r != Failure(Integrity)
    {
      if disk.body.None? {
        return Failure(BodyMissing);
      }
      assert Kept(disk, identity);
      if Trusted() {
        PrefixOfFullLength(disk, sha256);
      }
      if sha256(disk.body.value) == state.sha256 {
        return Success(state.mediaType);
      }
      TruncationSafe(disk, 0, sha256);
      Write(disk.(body := None));
      Write(disk.(metadata := None));
      return Failure(Integrity);
    }

    /** One more request of a download. */
    method Ask(state: Option<Record>, ghost failures: nat, ghost first: nat, ghost opening: Option<Disk>,
               ghost whole: Bytes, ghost record: Record, ghost bad: set<nat>, ghost healthy: bool)
      returns (after: Option<Record>, step: Step)
      requires Going(first, state, failures) && LastEnds(log).None? && Underway(first, opening)
      requires state.Some? ==> disk.Length() < state.value.size
      requires healthy ==> Healthy(whole, record, bad) && Excused(log, first, bad)
      requires healthy ==> state.Some? ==> state.value == record
      modifies this
      ensures Going(first, after, failures + if step.Retry? then 1 else 0)
      ensures LastEnds(log) == if step.Failed? then Some(step.error) else None
      ensures healthy ==> Excused(log, first, bad) && !step.Failed? && Temporaries(log) <= 3
      ensures healthy ==> after.Some? ==> after.value == record
      ensures after.Some? && disk.body.None? ==> disk == old(disk)
      ensures old(trace) <= trace && requests == old(requests) + 1
      ensures state.Some? ==> after.Some? && after.value.size == state.value.size
      ensures step.Advanced? ==> after.Some? && (state.Some? ==> disk.Length() > old(disk.Length()))
      ensures Underway(first, opening)
    {
      ghost var next, before := Next(), log;
      if healthy {
        HealthyExchange(next, requests, whole, record, bad);
      }
      after, step := Fetch(state);
      LogNext(before, next, first, server, bad);
      if healthy {
        TemporariesWithin(log, first, bad);
      }
    }
  }

  /**
   A fresh download of an empty artifact passes through a state with a record and
   without a body; whoever resumes from it fails for good.
   */
  method EmptyArtifactStuck(sha256: Bytes -> Digest, digest: Digest)
    returns (ghost trace: seq<Disk>, crash: Disk, r: Result<string, Error>)
    ensures crash in trace && Unresumable(crash) && r == Failure(BodyMissing)
  {
    var reply := Body(None, false, false, Some(0), Some(digest), "", None, [], false);
    var server := (n: nat, offset: nat) => reply;
    var download := new Workspace(sha256, server, Disk(None, None));
    crash := Disk(None, Some(Record(0, digest, "", None)));
    assert Accepts(reply, Disk(None, None)) && Recorded(reply, Disk(None, None)) == crash;
    var first := download.Receive([], Record(0, digest, "", None), {});
    trace := download.trace;
    var resumed := new Workspace(sha256, server, crash);
    r := resumed.Receive([], Record(0, digest, "", None), {});
  }
}
