// Durable observation of a Call: one iterator's cursor, deadline and recovery
// budget, over a stream that may be cut anywhere and a page interface that may
// fail at any request.
//
// The service is honest: it answers from one append-only log. When it answers,
// what it adds, how long anything takes and which requests fail is arbitrary.

module EventWatching {
  import opened Outcomes

  type Cursor = string

  /** `terminal` marks a state event that reports a terminal Call state. */
  datatype Event = Event(cursor: Cursor, terminal: bool, payload: string)

  datatype Error =
    | Transient
    | Http(status: int, retryAfter: real)
    | Malformed
    | TimedOut

  predicate Retryable(e: Error) {
    e.Transient? || (e.Http? && e.status in {408, 429, 500, 502, 503, 504})
  }

  /** The errors that the observation loops hand to the recovery budget. */
  predicate Caught(e: Error) {
    e.Transient? || e.Http?
  }

  ghost predicate ValidLog(log: seq<Event>) {
    && (forall i :: 0 <= i < |log| ==> log[i].cursor != "")
    && forall i, j :: 0 <= i < j < |log| ==> log[i].cursor != log[j].cursor
  }

  /** The position after the event that a cursor names. */
  function Position(log: seq<Event>, after: Option<Cursor>): (p: nat)
    ensures p <= |log|
  {
    if after.None? || log == [] then 0
    else if log[|log| - 1].cursor == after.value then |log|
    else Position(log[..|log| - 1], after)
  }

  lemma PositionOf(log: seq<Event>, i: nat)
    requires ValidLog(log) && i < |log|
    ensures Position(log, Some(log[i].cursor)) == i + 1
  {
    if i < |log| - 1 {
      PositionOf(log[..|log| - 1], i);
    }
  }

  // ----------------------------------------------------------------- record

  /** What reaches the world outside the watcher, and what that answers. */
  datatype Moment =
    | Request(at: real)
    | PageSent(at: real, more: bool)
    | StatusSent(at: real, terminal: bool)
    | StreamEnded(at: real)
    | Failed(at: real, error: Error)
    | Taken(at: real, event: Event)

  /** The moments follow each other in time, the last of them not after `now`. */
  predicate Chronological(record: seq<Moment>, now: real) {
    record == [] ||
      var last := record[|record| - 1];
      last.at <= now && Chronological(record[..|record| - 1], last.at)
  }

  /** The events that the consumer took. */
  function Deliveries(record: seq<Moment>): seq<Event> {
    if record == [] then []
    else
      var before, last := Deliveries(record[..|record| - 1]), record[|record| - 1];
      if last.Taken? then before + [last.event] else before
  }

  lemma {:induction false} ChronologicalPair(record: seq<Moment>, now: real, i: nat, j: nat)
    requires Chronological(record, now) && i <= j < |record|
    ensures record[i].at <= record[j].at <= now
  {
    var before, last := record[..|record| - 1], record[|record| - 1];
    if j < |record| - 1 {
      ChronologicalPair(before, last.at, i, j);
    } else if i < j {
      ChronologicalPair(before, last.at, i, i);
    }
  }

  // -------------------------------------------------------- recovery budget

  /** What the last answer means for the budget once the next request is due. */
  datatype Pending = Nothing | Restored | Lapsed(at: real, error: Error) | Ended | Asked

  /**
   Since the last progress: the retries, the time of the first, the earliest time for
   the next request, the last error, whether an error was beyond retrying, and what
   the last answer still does to all this.
   */
  datatype Budget = Budget(
    retries: nat, first: Option<real>, earliest: Option<real>, last: Option<Error>, hopeless: bool, pending: Pending)

  const FULL_BUDGET := Budget(0, None, None, None, false, Nothing)

  function Backoff(retries: nat): real {
    if retries == 0 then 0.5 else if retries == 1 then 1.0 else if retries == 2 then 2.0
    else if retries == 3 then 4.0 else 8.0
  }

  /** The backoff doubles from half a second up to eight seconds. */
  lemma BackoffDoubles(retries: nat)
    ensures Backoff(0) == 0.5
    ensures Backoff(retries + 1) == if 2.0 * Backoff(retries) <= 8.0 then 2.0 * Backoff(retries) else 8.0
  {
  }

  function Delay(retries: nat, e: Error): real {
    if e.Http? && e.retryAfter > Backoff(retries) then e.retryAfter else Backoff(retries)
  }

  function Latest(t: Option<real>, u: real): real {
    if t.Some? && t.value > u then t.value else u
  }

  /** The budget once the last answer counts: a failure costs a retry, progress restores everything. */
  function Settle(b: Budget): Budget {
    match b.pending
    case Lapsed(at, e) =>
      Budget(b.retries + 1, if b.first.None? then Some(at) else b.first,
             Some(Latest(b.earliest, at + Delay(b.retries, e))), Some(e), b.hopeless || !Retryable(e), Nothing)
    case Restored => FULL_BUDGET
    case _ => b
  }

  /** A stream that ends before the Call is complete counts as a failure; the status asked for next tells. */
  function NextBudget(b: Budget, m: Moment): Budget {
    var s := Settle(b);
    match m
    case Request(_) => s.(pending := if b.pending.Ended? then Asked else Nothing)
    case PageSent(_, more) => s.(pending := if more then Restored else Nothing)
    case StatusSent(at, terminal) =>
      s.(pending := if terminal then Nothing else if b.pending.Asked? then Lapsed(at, Transient) else Restored)
    case StreamEnded(_) => s.(pending := Ended)
    case Failed(at, e) => s.(pending := Lapsed(at, e))
    case Taken(_, _) => FULL_BUDGET
  }

  function BudgetOf(record: seq<Moment>): Budget {
    if record == [] then FULL_BUDGET
    else
      NextBudget(BudgetOf(record[..|record| - 1]), record[|record| - 1])
  }

  /** A request within the budget: few retries, no hopeless one, not too early and not too late. */
  predicate WithinBudget(b: Budget, at: real, deadline: Option<real>) {
    && b.retries <= 5 && !b.hopeless
    && (b.earliest.Some? ==> at >= b.earliest.value)
    && (b.first.Some? ==> at < b.first.value + 60.0)
    && (deadline.Some? ==> at < deadline.value)
  }

  /** Every request of the record is within the budget that the record before it leaves. */
  ghost predicate Paced(record: seq<Moment>, deadline: Option<real>) {
    record == [] ||
      var before, last := record[..|record| - 1], record[|record| - 1];
      Paced(before, deadline) && (last.Request? ==> WithinBudget(Settle(BudgetOf(before)), last.at, deadline))
  }

  lemma {:induction false} PacedAt(record: seq<Moment>, deadline: Option<real>, k: nat)
    requires Paced(record, deadline) && k < |record| && record[k].Request?
    ensures WithinBudget(Settle(BudgetOf(record[..k])), record[k].at, deadline)
  {
    if k < |record| - 1 {
      PacedAt(record[..|record| - 1], deadline, k);
      assert record[..|record| - 1][..k] == record[..k];
    }
  }

  /** The failure that a moment of the record is, if it is one: an error, or a stream that ended too early. */
  function FailureAt(record: seq<Moment>, k: nat): Option<Error>
    requires k < |record|
  {
    match record[k]
    case Failed(_, e) => Some(e)
    case StatusSent(_, terminal) =>
      if !terminal && k >= 2 && record[k - 1].Request? && record[k - 2].StreamEnded? then Some(Transient) else None
    case _ => None
  }

  /** A moment of progress: an event taken, a page with more to follow, or the news that the Call still runs. */
  predicate Progress(record: seq<Moment>, k: nat)
    requires k < |record|
  {
    match record[k]
    case Taken(_, _) => true
    case PageSent(_, more) => more
    case StatusSent(_, terminal) => !terminal && FailureAt(record, k).None?
    case _ => false
  }

  /** The number of failures among the moments from `i` to before `j`. */
  function Failures(record: seq<Moment>, i: nat, j: nat): nat
    requires i <= j <= |record|
  {
    if i == j then 0 else Failures(record, i, j - 1) + if FailureAt(record, j - 1).Some? then 1 else 0
  }

  function BudgetAt(record: seq<Moment>, k: nat): Budget
    requires k <= |record|
  {
    BudgetOf(record[..k])
  }

  lemma BudgetStep(record: seq<Moment>, k: nat)
    requires k < |record|
    ensures BudgetAt(record, k + 1) == NextBudget(BudgetAt(record, k), record[k])
  {
    assert record[..k + 1][..k] == record[..k];
  }

  lemma AskedAt(record: seq<Moment>, k: nat)
    requires k <= |record|
    ensures BudgetAt(record, k).pending.Asked? <==> k >= 2 && record[k - 1].Request? && record[k - 2].StreamEnded?
  {
    if k >= 1 {
      BudgetStep(record, k - 1);
      if k >= 2 {
        BudgetStep(record, k - 2);
      }
    }
  }

  lemma {:induction false} FirstBefore(record: seq<Moment>, now: real, k: nat)
    requires Chronological(record, now) && k <= |record|
    ensures var s := Settle(BudgetAt(record, k)); s.first.Some? ==> k > 0 && s.first.value <= record[k - 1].at
    ensures var b := BudgetAt(record, k); b.pending.Lapsed? ==> k > 0 && b.pending.at == record[k - 1].at
  {
    if k > 0 {
      BudgetStep(record, k - 1);
      FirstBefore(record, now, k - 1);
      ChronologicalPair(record, now, if k > 1 then k - 2 else 0, k - 1);
    }
  }

  /** What one moment without progress does to the budget. */
  lemma FailureCounts(record: seq<Moment>, now: real, k: nat)
    requires Chronological(record, now) && k < |record| && !Progress(record, k)
    ensures var s, t := Settle(BudgetAt(record, k)), Settle(BudgetAt(record, k + 1));
      && (FailureAt(record, k).None? ==>
            t.retries == s.retries && t.first == s.first && t.earliest == s.earliest && t.hopeless == s.hopeless)
      && (FailureAt(record, k).Some? ==> var e := FailureAt(record, k).value;
            && t.retries == s.retries + 1 && t.first.Some? && t.first.value <= record[k].at
            && t.earliest == Some(Latest(s.earliest, record[k].at + Delay(s.retries, e)))
            && t.hopeless == (s.hopeless || !Retryable(e))
            && (s.first.Some? ==> t.first == s.first))
  {
    BudgetStep(record, k);
    AskedAt(record, k);
    FirstBefore(record, now, k + 1);
  }

  /** Without progress from `i` to `j`, the budget before `j` accounts for every failure in between. */
  lemma {:induction false} FailuresAccounted(record: seq<Moment>, now: real, i: nat, m: nat, j: nat)
    requires Chronological(record, now) && i <= m < j <= |record| && FailureAt(record, m).Some?
    requires forall k: nat :: i <= k < j ==> !Progress(record, k)
    ensures var s, e := Settle(BudgetAt(record, j)), FailureAt(record, m).value;
      && s.retries >= Failures(record, i, j)
      && s.first.Some? && s.first.value <= record[m].at
      && s.earliest.Some? && s.earliest.value >= record[m].at + Backoff(Failures(record, i, m))
      && (e.Http? ==> s.earliest.value >= record[m].at + e.retryAfter)
      && (!s.hopeless ==> Retryable(e))
  {
    FailureCounts(record, now, j - 1);
    if m == j - 1 {
      FailuresCounted(record, now, i, m);
    } else {
      FailuresAccounted(record, now, i, m, j - 1);
    }
  }

  lemma {:induction false} FailuresCounted(record: seq<Moment>, now: real, i: nat, j: nat)
    requires Chronological(record, now) && i <= j <= |record|
    requires forall k: nat :: i <= k < j ==> !Progress(record, k)
    ensures Settle(BudgetAt(record, j)).retries >= Failures(record, i, j)
  {
    if i < j {
      FailureCounts(record, now, j - 1);
      FailuresCounted(record, now, i, j - 1);
    }
  }

  /**
   What a paced record promises of every request that follows a failure, with no
   progress from `i` until it: at most five failures, none that cannot be retried;
   not before the backoff and the Retry-After of any of them have passed; within
   sixty seconds of each, and before the deadline.
   */
  lemma RequestsWithinBudget(record: seq<Moment>, now: real, deadline: Option<real>, i: nat, m: nat, j: nat)
    requires Paced(record, deadline) && Chronological(record, now)
    requires i <= m < j < |record| && FailureAt(record, m).Some? && record[j].Request?
    requires forall k: nat :: i <= k < j ==> !Progress(record, k)
    ensures Failures(record, i, j) <= 5
    ensures match FailureAt(record, m).value
      case Transient => true
      case Http(status, retryAfter) =>
        status in {408, 429, 500, 502, 503, 504} && record[j].at >= record[m].at + retryAfter
      case _ => false
    ensures record[j].at >= record[m].at + Backoff(Failures(record, i, m))
    ensures record[j].at < record[m].at + 60.0
    ensures deadline.Some? ==> record[j].at < deadline.value
  {
    PacedAt(record, deadline, j);
    FailuresAccounted(record, now, i, m, j);
  }

  lemma RecordOne(record: seq<Moment>, m: Moment, deadline: Option<real>)
    requires Paced(record, deadline)
    requires m.Request? ==> WithinBudget(Settle(BudgetOf(record)), m.at, deadline)
    ensures Paced(record + [m], deadline)
    ensures BudgetOf(record + [m]) == NextBudget(BudgetOf(record), m)
    ensures Deliveries(record + [m]) == Deliveries(record) + if m.Taken? then [m.event] else []
  {
    assert (record + [m])[..|record|] == record;
  }

  /** What an answer leaves to be settled; `ended` says that the request followed the end of a stream. */
  function Consequence(answer: Moment, ended: bool): Pending {
    match answer
    case PageSent(_, more) => if more then Restored else Nothing
    case StatusSent(at, terminal) => if terminal then Nothing else if ended then Lapsed(at, Transient) else Restored
    case StreamEnded(_) => Ended
    case Failed(at, e) => Lapsed(at, e)
    case _ => Nothing
  }

  /** A request and what it is answered. */
  lemma RecordAnswer(record: seq<Moment>, at: real, answer: Moment, deadline: Option<real>)
    requires Paced(record, deadline) && WithinBudget(Settle(BudgetOf(record)), at, deadline)
    requires !answer.Request? && !answer.Taken?
    ensures Paced(record + [Request(at), answer], deadline)
    ensures BudgetOf(record + [Request(at), answer]) ==
      Settle(BudgetOf(record)).(pending := Consequence(answer, BudgetOf(record).pending.Ended?))
    ensures Deliveries(record + [Request(at), answer]) == Deliveries(record)
  {
    RecordOne(record, Request(at), deadline);
    RecordOne(record + [Request(at)], answer, deadline);
    assert record + [Request(at)] + [answer] == record + [Request(at), answer];
  }

  lemma ChronologicalOne(record: seq<Moment>, m: Moment, before: real)
    requires Chronological(record, before) && before <= m.at
    ensures Chronological(record + [m], m.at)
  {
    assert (record + [m])[..|record|] == record;
  }

  lemma ChronologicalAnswer(record: seq<Moment>, at: real, answer: Moment)
    requires Chronological(record, at) && at <= answer.at
    ensures Chronological(record + [Request(at), answer], answer.at)
  {
    ChronologicalOne(record, Request(at), at);
    ChronologicalOne(record + [Request(at)], answer, at);
    assert record + [Request(at)] + [answer] == record + [Request(at), answer];
  }

  /** When retries end at the latest, if there was a failure since the last progress. */
  function Limit(b: Budget): Option<real> {
    if b.first.Some? then Some(b.first.value + 60.0)
    else if b.pending.Lapsed? then Some(b.pending.at + 60.0)
    else None
  }

  /** The recovery budget leaves no room for another retry after this error. */
  predicate Spent(b: Budget, now: real, e: Error) {
    b.retries >= 5 || (Limit(b).Some? && (now >= Limit(b).value || Delay(b.retries, e) >= Limit(b).value - now))
  }

  /** The time for retries has run out, and this was the last error. */
  predicate Overdue(b: Budget, now: real, e: Error) {
    b.last == Some(e) && b.first.Some? && b.first.value + 60.0 <= now
  }

  /**
   Why a watcher may raise an error: the deadline has passed; or the service has just
   failed with it, and it cannot be retried or the budget is spent; or it was the last
   error and the time for retries has run out.
   */
  predicate Justified(e: Error, b: Budget, now: real, deadline: Option<real>) {
    if e == TimedOut then deadline.Some? && deadline.value <= now
    else
      || (b.pending.Lapsed? && b.pending.error == e && (!Retryable(e) || Spent(b, now, e)))
      || Overdue(b, now, e) || Overdue(Settle(b), now, e)
  }

  /** There was no progress from `i` to before `j`, and there was just before that unless it is the start. */
  ghost predicate Since(record: seq<Moment>, i: nat, j: nat) {
    && i <= j <= |record| && (i > 0 ==> Progress(record, i - 1))
    && forall k: nat :: i <= k < j ==> !Progress(record, k)
  }

  /** Some failure from `i` to before `j` is at least sixty seconds older than `t`. */
  ghost predicate OldFailure(record: seq<Moment>, i: nat, j: nat, t: real)
    requires j <= |record|
  {
    exists m: nat :: i <= m < j && FailureAt(record, m).Some? && record[m].at + 60.0 <= t
  }

  /** The first failure that a budget remembers is one since the last progress, and it counts them all. */
  lemma {:induction false} BudgetSince(record: seq<Moment>, now: real, i: nat, j: nat)
    requires Chronological(record, now) && Since(record, i, j)
    ensures var s := Settle(BudgetAt(record, j));
      && s.retries == Failures(record, i, j)
      && (s.first.Some? ==> OldFailure(record, i, j, s.first.value + 60.0))
  {
    if j > i {
      assert !Progress(record, j - 1);
      BudgetSince(record, now, i, j - 1);
      BudgetStep(record, j - 1);
      AskedAt(record, j - 1);
      FirstBefore(record, now, j);
    } else if i > 0 {
      BudgetStep(record, i - 1);
      AskedAt(record, i - 1);
    }
  }

  lemma OlderFailure(record: seq<Moment>, i: nat, j: nat, t: real, u: real)
    requires j <= |record| && OldFailure(record, i, j, t) && t <= u
    ensures OldFailure(record, i, |record|, u)
  {
    var m: nat :| i <= m < j && FailureAt(record, m).Some? && record[m].at + 60.0 <= t;
  }

  /** An answer that is yet to be counted is the last failure. */
  lemma LapsedIsLast(record: seq<Moment>, now: real)
    requires Chronological(record, now) && BudgetOf(record).pending.Lapsed?
    ensures var n, b := |record|, BudgetOf(record);
      && n > 0 && FailureAt(record, n - 1) == Some(b.pending.error) && b.pending.at == record[n - 1].at
      && b.retries == Settle(BudgetAt(record, n - 1)).retries && b.first == Settle(BudgetAt(record, n - 1)).first
  {
    assert record[..|record|] == record;
    BudgetStep(record, |record| - 1);
    AskedAt(record, |record| - 1);
  }

  /** The first failure that the budget of a record remembers, also if the last answer has not been acted on. */
  lemma RemembersFailure(record: seq<Moment>, now: real, i: nat)
    requires Chronological(record, now) && record != [] && Since(record, i, |record| - 1)
    ensures var n, b := |record|, BudgetOf(record);
      && (b.first.Some? ==> OldFailure(record, i, n, b.first.value + 60.0))
      && (Settle(b).first.Some? ==> OldFailure(record, i, n, Settle(b).first.value + 60.0))
  {
    var n, b := |record|, BudgetOf(record);
    var s := Settle(BudgetAt(record, n - 1));
    assert record[..n] == record;
    BudgetSince(record, now, i, n - 1);
    BudgetStep(record, n - 1);
    if s.first.Some? {
      OlderFailure(record, i, n - 1, s.first.value + 60.0, s.first.value + 60.0);
    }
    if b.pending.Lapsed? {
      LapsedIsLast(record, now);
    }
  }

  /**
   Why an error is raised, in terms of the record alone; `i` begins the moments without
   progress before the last answer. The error is that answer, and cannot be retried, is
   the sixth failure without progress, or has a delay that would end sixty seconds after
   one of them; or one of them is sixty seconds old.
   */
  lemma RaisedForCause(record: seq<Moment>, now: real, deadline: Option<real>, e: Error, i: nat)
    requires Chronological(record, now) && Since(record, i, if record == [] then 0 else |record| - 1)
    requires Justified(e, BudgetOf(record), now, deadline)
    ensures if e == TimedOut then deadline.Some? && deadline.value <= now
      else
        var n := |record|;
        || OldFailure(record, i, n, now)
        || (n > 0 && FailureAt(record, n - 1) == Some(e) &&
            (|| !(e.Transient? || (e.Http? && e.status in {408, 429, 500, 502, 503, 504}))
             || Failures(record, i, n) >= 6
             || OldFailure(record, i, n, now + Backoff(Failures(record, i, n - 1)))
             || (e.Http? && OldFailure(record, i, n, now + e.retryAfter))))
  {
    var n, b := |record|, BudgetOf(record);
    if e != TimedOut {
      RemembersFailure(record, now, i);
      if Overdue(b, now, e) {
        OlderFailure(record, i, n, b.first.value + 60.0, now);
      } else if Overdue(Settle(b), now, e) {
        OlderFailure(record, i, n, Settle(b).first.value + 60.0, now);
      } else if Retryable(e) {
        SpentForCause(record, now, e, i);
      }
    }
  }

  lemma SpentForCause(record: seq<Moment>, now: real, e: Error, i: nat)
    requires Chronological(record, now) && record != [] && Since(record, i, |record| - 1)
    requires var b := BudgetOf(record); b.pending.Lapsed? && b.pending.error == e && Spent(b, now, e)
    ensures var n := |record|;
      && FailureAt(record, n - 1) == Some(e)
      && (|| Failures(record, i, n) >= 6 || OldFailure(record, i, n, now)
          || OldFailure(record, i, n, now + Backoff(Failures(record, i, n - 1)))
          || (e.Http? && OldFailure(record, i, n, now + e.retryAfter)))
  {
    var n, b := |record|, BudgetOf(record);
    LapsedIsLast(record, now);
    RemembersFailure(record, now, i);
    BudgetSince(record, now, i, n - 1);
    var first := Limit(b).value;
    assert OldFailure(record, i, n, first);
    if b.retries < 5 {
      OlderFailure(record, i, n, first, if now >= first then now else now + Delay(b.retries, e));
    }
  }

  // ---------------------------------------------------------------- service

  datatype PageReply = Page(events: seq<Event>, more: bool) | PageFailed(error: Error)
  datatype StreamReply = Opened | Refused(error: Error)
  datatype StreamItem = Next(event: Event) | Closed | Cut(error: Error)
  datatype StatusReply = State(terminal: bool) | StatusFailed(error: Error)

  lemma TerminalWithin(log: seq<Event>, p: nat, q: nat)
    requires p <= q <= |log|
    ensures (exists e :: e in log[p..q] && e.terminal) ==> exists i :: p <= i < q && log[i].terminal
  {
    if e :| e in log[p..q] && e.terminal {
      var i :| 0 <= i < q - p && log[p..q][i] == e;
      assert log[p + i].terminal;
    }
  }

  lemma SliceNext(log: seq<Event>, from: nat, to: nat)
    requires from <= to < |log|
    ensures log[from..to] + [log[to]] == log[from..to + 1]
  {
  }

  /** Everything outside the watcher: the service, the consumer and the clock. */
  class Service {
    /** Everything the Call will ever have recorded. */
    const log: seq<Event>
    /** How much of it is durable now, and how much was when the Call became terminal. */
    var visible: nat
    var terminalAt: Option<nat>
    var now: real
    /** Every request that arrived, every answer to one, and every event that was taken. */
    ghost var record: seq<Moment>

    constructor (log: seq<Event>, now: real)
      requires ValidLog(log)
      ensures Valid() && this.log == log && visible == 0 && terminalAt == None && this.now == now && record == []
    {
      this.log, visible, terminalAt, this.now, record := log, 0, None, now, [];
    }

    ghost predicate Valid()
      reads this
    {
      && ValidLog(log) && visible <= |log|
      && (terminalAt.Some? ==> terminalAt.value <= visible)
      && (forall i :: 0 <= i < visible && log[i].terminal ==> terminalAt.Some?)
      && Chronological(record, now)
    }

    /** Time passes: events may be recorded, and the Call may become terminal. */
    method Elapse()
      requires Valid()
      modifies this`visible, this`terminalAt, this`now
      ensures Valid() && Later(old(visible), old(terminalAt), old(now))
    {
      var v: nat :| visible <= v <= |log|;
      var late := terminalAt.None? && exists i :: visible <= i < v && log[i].terminal;
      var turns := *;
      if late || (terminalAt.None? && turns) {
        var t: nat :| visible <= t <= v;
        terminalAt := Some(t);
      }
      visible := v;
      var d: real :| d >= 0.0;
      now := now + d;
    }

    ghost predicate Later(visible0: nat, terminalAt0: Option<nat>, now0: real)
      reads this
    {
      && visible0 <= visible && now0 <= now
      && (terminalAt0.Some? ==> terminalAt == terminalAt0)
      && (terminalAt0.None? && terminalAt.Some? ==> visible0 <= terminalAt.value)
    }

    method Sleep(d: real)
      requires Valid()
      modifies this`visible, this`terminalAt, this`now
      ensures Valid() && Later(old(visible), old(terminalAt), old(now)) && now >= old(now) + d
    {
      Elapse();
      if d > 0.0 {
        now := now + d;
      }
    }

    /** The consumer takes an event, and comes back for the next at any time. */
    method Take(event: Event)
      requires Valid()
      modifies this
      ensures Valid() && Later(old(visible), old(terminalAt), old(now))
      ensures record == old(record) + [Taken(old(now), event)]
    {
      ChronologicalOne(record, Taken(now, event), now);
      record := record + [Taken(now, event)];
      Elapse();
    }

    /** Any error of a request; the service itself knows no deadline. */
    method Fails() returns (e: Error)
      ensures e != TimedOut
    {
      e :| e != TimedOut;
    }

    /** One page after a cursor. When no more follow, it reached the end of what was durable. */
    method GetPage(after: Option<Cursor>) returns (r: PageReply)
      requires Valid() && Position(log, after) <= visible
      modifies this
      ensures Valid() && Later(old(visible), old(terminalAt), old(now))
      ensures record == old(record) + [Request(old(now)), PageMoment(r, now)]
      ensures r.Page? ==> var p := Position(log, after); var q := p + |r.events|;
        && q <= visible && r.events == log[p..q]
        && (!r.more ==> old(visible) <= q)
        && (!r.more && (exists e :: e in r.events && e.terminal) ==> terminalAt.Some? && terminalAt.value <= q)
      ensures r.PageFailed? ==> r.error != TimedOut
    {
      Elapse();
      var p := Position(log, after);
      var fails := *;
      if fails {
        var e := Fails();
        r := PageFailed(e);
      } else {
        var q: nat :| p <= q <= visible;
        r := Page(log[p..q], q < visible);
        TerminalWithin(log, p, q);
      }
      Elapse();
      Answer(old(now), PageMoment(r, now));
    }

    /** Notes a request and its answer. */
    ghost method Answer(sent: real, answer: Moment)
      requires Valid() && Chronological(record, sent) && sent <= answer.at == now
      modifies this`record
      ensures Valid() && record == old(record) + [Request(sent), answer]
    {
      ChronologicalAnswer(record, sent, answer);
      record := record + [Request(sent), answer];
    }

    ghost method Note(m: Moment)
      requires Valid() && m.at == now
      modifies this`record
      ensures Valid() && record == old(record) + [m]
    {
      ChronologicalOne(record, m, now);
      record := record + [m];
    }

    method OpenStream() returns (r: StreamReply)
      requires Valid()
      modifies this
      ensures Valid() && Later(old(visible), old(terminalAt), old(now))
      ensures r.Opened? ==> record == old(record) + [Request(old(now))]
      ensures r.Refused? ==> record == old(record) + [Request(old(now)), Failed(now, r.error)] && r.error != TimedOut
    {
      r :| r.Refused? ==> r.error != TimedOut;
      if r.Opened? {
        Note(Request(now));
        Elapse();
      } else {
        Elapse();
        Answer(old(now), Failed(now, r.error));
      }
    }

    /** The next event of a stream that has delivered everything before position p. */
    method NextItem(p: nat) returns (r: StreamItem)
      requires Valid() && p <= visible
      modifies this
      ensures Valid() && Later(old(visible), old(terminalAt), old(now))
      ensures record == old(record) + match r
                                      case Next(_) => []
                                      case Closed => [StreamEnded(now)]
                                      case Cut(e) => [Failed(now, e)]
      ensures r.Next? ==> p < visible && r.event == log[p]
      ensures r.Cut? ==> r.error != TimedOut
    {
      Elapse();
      var fails: StreamItem :| fails.Cut? ==> fails.error != TimedOut;
      if fails.Next? {
        r := if p < visible then Next(log[p]) else Closed;
      } else {
        r := fails;
      }
      match r {
        case Next(_) =>
        case Closed => Note(StreamEnded(now));
        case Cut(e) => Note(Failed(now, e));
      }
    }

    method GetStatus() returns (r: StatusReply)
      requires Valid()
      modifies this
      ensures Valid() && Later(old(visible), old(terminalAt), old(now))
      ensures record == old(record) + [Request(old(now)), StatusMoment(r, now)]
      ensures r.State? && r.terminal ==> terminalAt.Some?
      ensures r.StatusFailed? ==> r.error != TimedOut
    {
      Elapse();
      assert !State(false).StatusFailed?;
      var reply: StatusReply :| reply.StatusFailed? ==> reply.error != TimedOut;
      r := if reply.State? then State(terminalAt.Some?) else reply;
      Elapse();
      Answer(old(now), StatusMoment(r, now));
    }
  }

  function PageMoment(r: PageReply, at: real): Moment {
    match r
    case Page(_, more) => PageSent(at, more)
    case PageFailed(e) => Failed(at, e)
  }

  function StatusMoment(r: StatusReply, at: real): Moment {
    match r
    case State(terminal) => StatusSent(at, terminal)
    case StatusFailed(e) => Failed(at, e)
  }

  // ---------------------------------------------------------------- watcher

  datatype Outcome = Returned | Raised(error: Error) | StillRunning

  class EventWatcher {
    const service: Service
    const follow: bool
    const deadline: Option<real>
    const pollInterval: real
    const start: Option<Cursor>
    var cursor: Option<Cursor>
    var failures: nat
    var recoveryDeadline: Option<real>
    var lastError: Option<Error>

    constructor (service: Service, after: Option<Cursor>, follow: bool, timeout: Option<real>, pollInterval: real)
      requires service.Valid() && Position(service.log, after) <= service.visible && service.record == []
      requires timeout.Some? ==> timeout.value >= 0.0
      ensures this.service == service && this.start == after && cursor == after && this.follow == follow
      ensures deadline == if timeout.None? then None else Some(service.now + timeout.value)
      ensures Valid() && fresh(this)
    {
      this.service, this.start, this.cursor, this.follow, this.pollInterval :=
        service, after, after, follow, pollInterval;
      deadline := if timeout.None? then None else Some(service.now + timeout.value);
      failures, recoveryDeadline, lastError := 0, None, None;
    }

    ghost function Left(): Budget
      reads this, service
    {
      BudgetOf(service.record)
    }

    /** The watcher may send a request: its counters are what the record says once the last answer counts. */
    ghost predicate Valid()
      reads this, service
    {
      Sound() && Counted(Settle(Left()))
    }

    /** The last answer was not acted on yet. */
    ghost predicate Holding()
      reads this, service
    {
      Sound() && Counted(Left())
    }

    /** What holds at every moment, also when the watcher raises. */
    ghost predicate Sound()
      reads this, service
    {
      service.Valid() && Delivered() && Paced(service.record, deadline)
    }

    /** Exactly the log between the starting cursor and the current one was taken by the consumer. */
    ghost predicate Delivered()
      reads this, service
    {
      var from, to := Position(service.log, start), Position(service.log, cursor);
      from <= to <= service.visible && Deliveries(service.record) == service.log[from..to]
    }

    /** The counters are those of a budget, whose delays have passed. */
    ghost predicate Counted(b: Budget)
      reads this, service
    {
      && failures == b.retries <= 5 && lastError == b.last && !b.hopeless
      && (b.first.Some? <==> b.last.Some?) && (b.last.Some? ==> Caught(b.last.value))
      && recoveryDeadline == (if b.first.Some? then Some(b.first.value + 60.0) else None)
      && (b.earliest.Some? ==> service.now >= b.earliest.value)
    }

    /** The time that is left, or the error to raise. */
    method Remaining() returns (r: Result<Option<real>, Error>)
      requires service.Valid()
      ensures r.Failure? ==> Late(r.error)
      ensures r.Success? ==>
        && (deadline.Some? ==> service.now < deadline.value)
        && (deadline.Some? ==> r.value.Some? && r.value.value <= deadline.value - service.now)
        && (recoveryDeadline.Some? ==> r.value.Some? && r.value.value <= recoveryDeadline.value - service.now)
        && (recoveryDeadline.Some? && lastError.Some? ==> service.now < recoveryDeadline.value)
      ensures r.Success? && r.value.Some? ==>
        || (deadline.Some? && r.value.value == deadline.value - service.now)
        || (recoveryDeadline.Some? && r.value.value == recoveryDeadline.value - service.now)
    {
      var now := service.now;
      var remaining: Option<real> := None;
      if deadline.Some? {
        remaining := Some(deadline.value - now);
        if remaining.value <= 0.0 {
          return Failure(TimedOut);
        }
      }
      if recoveryDeadline.Some? {
        var left := recoveryDeadline.value - now;
        if left <= 0.0 && lastError.Some? {
          return Failure(lastError.value);
        }
        remaining := if remaining.Some? && remaining.value < left then remaining else Some(left);
      }
      return Success(remaining);
    }

    /** A deadline has passed, and this is the error that says so. */
    ghost predicate Late(e: Error)
      reads this, service
    {
      || (e == TimedOut && deadline.Some? && deadline.value <= service.now)
      || (lastError == Some(e) && recoveryDeadline.Some? && recoveryDeadline.value <= service.now)
    }

    /** A request or delivery ended with this error: a deadline has passed, or the service has just failed with it. */
    ghost predicate Failing(e: Error)
      reads this, service
    {
      && Sound()
      && if e == TimedOut then deadline.Some? && deadline.value <= service.now
         else
           || (Late(e) && (Counted(Left()) || Counted(Settle(Left()))))
           || (Counted(Left()) && Left().pending == Lapsed(service.now, e))
    }

    /** The Call has become terminal. */
    ghost predicate Terminal()
      reads this, service
    {
      service.terminalAt.Some?
    }

    ghost predicate After(cursor0: Option<Cursor>, visible0: nat, terminalAt0: Option<nat>, now0: real)
      reads this, service
    {
      cursor == cursor0 && service.Later(visible0, terminalAt0, now0)
    }

    /** The last answer was not acted on yet, and its error is raised or retried. */
    lemma FailsNow(e: Error)
      requires Holding() && Left().pending == Lapsed(service.now, e) && e != TimedOut
      ensures Failing(e)
    {
    }

    lemma FailsLate(e: Error)
      requires Late(e) && (Holding() || Valid())
      ensures Failing(e)
    {
    }

    /** A request that was within the budget was answered. */
    lemma Answered(record: seq<Moment>, sent: real, answer: Moment)
      requires service.Valid() && service.record == record + [Request(sent), answer] && !answer.Request? &&
        !answer.Taken?
      requires Paced(record, deadline) && WithinBudget(Settle(BudgetOf(record)), sent, deadline)
      requires Position(service.log, start) <= Position(service.log, cursor) <= service.visible
      requires Deliveries(record) == service.log[Position(service.log, start)..Position(service.log, cursor)]
      requires Counted(Settle(BudgetOf(record)))
      ensures Holding()
      ensures Left() == Settle(BudgetOf(record)).(pending := Consequence(answer, BudgetOf(record).pending.Ended?))
    {
      RecordAnswer(record, sent, answer, deadline);
    }

    /** A stream was asked for, or it ended or failed. */
    lemma Noted(record: seq<Moment>, m: Moment)
      requires service.Valid() && service.record == record + [m] && Paced(record, deadline)
      requires m.StreamEnded? || m.Failed? || (m.Request? && WithinBudget(Settle(BudgetOf(record)), m.at, deadline))
      requires Position(service.log, start) <= Position(service.log, cursor) <= service.visible
      requires Deliveries(record) == service.log[Position(service.log, start)..Position(service.log, cursor)]
      requires Counted(Settle(BudgetOf(record)))
      ensures Holding() && (!m.Failed? ==> Valid())
      ensures m.Failed? || m.StreamEnded? ==> Left().pending == Consequence(m, false)
    {
      RecordOne(record, m, deadline);
    }

    method NoteProgress()
      modifies this`failures, this`recoveryDeadline, this`lastError
      ensures failures == 0 && recoveryDeadline == None && lastError == None
    {
      failures, recoveryDeadline, lastError := 0, None, None;
    }

    /** Sleeps for the delay, unless a deadline passes first. */
    method Sleep(delay: real) returns (raised: Option<Error>)
      requires Sound() && (recoveryDeadline.Some? <==> lastError.Some?)
      modifies service`visible, service`terminalAt, service`now
      ensures Sound() && After(old(cursor), old(service.visible), old(service.terminalAt), old(service.now))
      ensures raised.None? ==> service.now >= old(service.now) + delay
      ensures raised.Some? ==> Late(raised.value)
    {
      var r := Remaining();
      if r.Failure? {
        return Some(r.error);
      }
      service.Sleep(if r.value.Some? && r.value.value < delay then r.value.value else delay);
      var left := Remaining();
      raised := if left.Failure? then Some(left.error) else None;
    }

    /**
     Spends one retry of the recovery budget on the error and waits out its delay, or
     raises. No request is sent here.
     */
    method Retry(error: Error) returns (raised: Option<Error>)
      requires Failing(error) && Caught(error)
      modifies this`failures, this`recoveryDeadline, this`lastError
      modifies service`visible, service`terminalAt, service`now
      ensures Sound() && After(old(cursor), old(service.visible), old(service.terminalAt), old(service.now))
      ensures raised.None? ==> Valid() && Retried(error, old(failures), old(service.now))
      ensures raised.Some? ==> Justified(raised.value, Left(), service.now, deadline)
    {
      var r := Remaining();
      if r.Failure? {
        return Some(r.error);
      }
      if !Retryable(error) {
        return Some(error);
      }
      var now := service.now;
      if recoveryDeadline.None? {
        recoveryDeadline := Some(now + 60.0);
      }
      if failures >= 5 || now >= recoveryDeadline.value {
        return Some(error);
      }
      var delay := Delay(failures, error);
      if delay >= recoveryDeadline.value - now {
        return Some(error);
      }
      raised := Spend(error, delay);
    }

    /** The variables while a retry is decided: the limit for retries is set, the retry not yet counted. */
    ghost predicate Deciding(b: Budget, error: Error)
      reads this, service
    {
      && failures == b.retries < 5 && !b.hopeless && b.pending == Lapsed(service.now, error)
      && recoveryDeadline == Limit(b) && (b.earliest.Some? ==> service.now >= b.earliest.value)
    }

    /** Counts the retry and waits out its delay. */
    method Spend(error: Error, delay: real) returns (raised: Option<Error>)
      requires Sound() && Deciding(Left(), error)
      requires Caught(error) && Retryable(error) && delay == Delay(failures, error)
      modifies this`failures, this`lastError, service`visible, service`terminalAt, service`now
      ensures Sound() && After(old(cursor), old(service.visible), old(service.terminalAt), old(service.now))
      ensures raised.None? ==> Valid() && Retried(error, old(failures), old(service.now))
      ensures raised.Some? ==> Justified(raised.value, Left(), service.now, deadline)
    {
      failures, lastError := failures + 1, Some(error);
      raised := Sleep(delay);
    }

    /** One more retry was counted, and its delay has passed. */
    ghost predicate Retried(error: Error, failures0: nat, now0: real)
      reads this, service
    {
      && Retryable(error) && failures == failures0 + 1 && lastError == Some(error)
      && service.now >= now0 + Backoff(failures0) && (error.Http? ==> service.now >= now0 + error.retryAfter)
    }

    /** Hands one event to the consumer, who may take any time. */
    method Deliver(event: Event) returns (raised: Option<Error>)
      requires Holding() || Valid()
      requires Position(service.log, cursor) < service.visible && event == service.log[Position(service.log, cursor)]
      modifies this, service
      ensures service.Later(old(service.visible), old(service.terminalAt), old(service.now))
      ensures raised.None? ==> Sound() && Left() == FULL_BUDGET && Counted(FULL_BUDGET)
      ensures raised.None? ==> Position(service.log, cursor) == Position(service.log, old(cursor)) + 1
      ensures raised.None? && event.terminal ==> Terminal()
      ensures raised.Some? ==> Failing(raised.value) && cursor == old(cursor) && service.record == old(service.record)
    {
      var r := Remaining();
      if r.Failure? {
        FailsLate(r.error);
        return Some(r.error);
      }
      PositionOf(service.log, Position(service.log, cursor));
      SliceNext(service.log, Position(service.log, start), Position(service.log, cursor));
      cursor := Some(event.cursor);
      NoteProgress();
      RecordOne(service.record, Taken(service.now, event), deadline);
      service.Take(event);
      return None;
    }

    /** There is time left for a request. */
    ghost predicate Ready()
      reads this, service
    {
      && (deadline.Some? ==> service.now < deadline.value)
      && (recoveryDeadline.Some? ==> service.now < recoveryDeadline.value)
    }

    method AskStatus() returns (reply: StatusReply)
      requires Valid() && Ready()
      modifies service
      ensures service.Later(old(service.visible), old(service.terminalAt), old(service.now))
      ensures Holding() && Left() == Settle(old(Left())).(
        pending := Consequence(StatusMoment(reply, service.now), old(Left()).pending.Ended?))
      ensures reply.State? && reply.terminal ==> Terminal()
      ensures reply.StatusFailed? ==> reply.error != TimedOut
    {
      ghost var record, sent := service.record, service.now;
      reply := service.GetStatus();
      Answered(record, sent, StatusMoment(reply, service.now));
    }

    /** The status request. */
    method Completed() returns (r: Result<bool, Error>)
      requires Valid()
      modifies service
      ensures service.Later(old(service.visible), old(service.terminalAt), old(service.now))
      ensures r.Success? && r.value ==> Valid() && Terminal()
      ensures r.Success? && !r.value ==> Holding()
      ensures r.Success? && !r.value ==>
        Left().pending == if old(Left()).pending.Ended? then Lapsed(service.now, Transient) else Restored
      ensures r.Failure? ==> Failing(r.error)
    {
      var timeout := Remaining();
      if timeout.Failure? {
        FailsLate(timeout.error);
        return Failure(timeout.error);
      }
      var reply := AskStatus();
      var left := Remaining();
      if left.Failure? {
        FailsLate(left.error);
        return Failure(left.error);
      }
      match reply {
        case State(terminal) => return Success(terminal);
        case StatusFailed(error) =>
          FailsNow(error);
          return Failure(error);
      }
    }

    /** Delivers the events of one page, up to the first that cannot be delivered. */
    method DeliverPage(events: seq<Event>, completed: bool) returns (r: Result<bool, Error>, seen: bool)
      requires Holding() && (completed ==> Terminal())
      requires var p := Position(service.log, cursor);
        p + |events| <= service.visible && events == service.log[p..p + |events|]
      modifies this, service
      ensures service.Later(old(service.visible), old(service.terminalAt), old(service.now))
      ensures seen ==> Terminal()
      ensures r.Success? ==>
        r.value == seen && Position(service.log, cursor) == Position(service.log, old(cursor)) + |events|
      ensures r.Success? && seen ==> completed || exists e :: e in events && e.terminal
      ensures r.Success? ==> Holding() && (Left() == old(Left()) || Left() == FULL_BUDGET)
      ensures r.Failure? ==> Failing(r.error)
    {
      seen := completed;
      var k := 0;
      ghost var p := Position(service.log, cursor);
      while k < |events|
        invariant 0 <= k <= |events| && Holding() && (Left() == old(Left()) || Left() == FULL_BUDGET)
        invariant service.Later(old(service.visible), old(service.terminalAt), old(service.now))
        invariant Position(service.log, cursor) == p + k
        invariant seen ==> Terminal() && (completed || exists e :: e in events && e.terminal)
      {
        assert events[k] == service.log[p + k] && events[k] in events;
        var raised := Deliver(events[k]);
        if raised.Some? {
          return Failure(raised.value), seen;
        }
        if events[k].terminal {
          seen := true;
        }
        k := k + 1;
      }
      return Success(seen), seen;
    }

    method AskPage() returns (reply: PageReply)
      requires Valid() && Ready()
      modifies service
      ensures service.Later(old(service.visible), old(service.terminalAt), old(service.now))
      ensures Holding() && Left() == Settle(old(Left())).(
        pending := Consequence(PageMoment(reply, service.now), old(Left()).pending.Ended?))
      ensures reply.Page? ==> var p := Position(service.log, cursor); var q := p + |reply.events|;
        && q <= service.visible && reply.events == service.log[p..q]
        && (!reply.more ==> old(service.visible) <= q)
        && (!reply.more && (exists e :: e in reply.events && e.terminal) ==>
             Terminal() && service.terminalAt.value <= q)
      ensures reply.PageFailed? ==> reply.error != TimedOut
    {
      ghost var record, sent := service.record, service.now;
      reply := service.GetPage(cursor);
      Answered(record, sent, PageMoment(reply, service.now));
    }

    /** The page request. */
    method FetchPage() returns (r: Result<(seq<Event>, bool), Error>)
      requires Valid()
      modifies service
      ensures service.Later(old(service.visible), old(service.terminalAt), old(service.now))
      ensures r.Success? ==> Holding() && Left().pending == if r.value.1 then Restored else Nothing
      ensures r.Success? ==> var p, q := Position(service.log, cursor), Position(service.log, cursor) + |r.value.0|;
        && q <= service.visible && r.value.0 == service.log[p..q]
        && (!r.value.1 ==> old(service.visible) <= q)
        && (!r.value.1 && (exists e :: e in r.value.0 && e.terminal) ==> Terminal() && service.terminalAt.value <= q)
      ensures r.Failure? ==> Failing(r.error)
    {
      var timeout := Remaining();
      if timeout.Failure? {
        FailsLate(timeout.error);
        return Failure(timeout.error);
      }
      var page := AskPage();
      var left := Remaining();
      if left.Failure? {
        FailsLate(left.error);
        return Failure(left.error);
      }
      match page {
        case Page(events, more) => return Success((events, more));
        case PageFailed(error) =>
          FailsNow(error);
          return Failure(error);
      }
    }

    /** After the last page of an unfinished Call: reads the status, and waits when it is not terminal. */
    method AwaitMore() returns (r: Result<bool, Error>)
      requires Valid() && !Left().pending.Ended?
      modifies this, service
      ensures After(old(cursor), old(service.visible), old(service.terminalAt), old(service.now))
      ensures r == Success(true) ==> Terminal()
      ensures r.Success? ==> Valid()
      ensures r.Failure? ==> Failing(r.error)
    {
      var status := Completed();
      if status.Failure? || status.value {
        return status;
      }
      NoteProgress();
      var raised := Sleep(pollInterval);
      return if raised.Some? then Failure(raised.value) else Success(false);
    }

    /** One turn of the polling loop: Success(true) when it returns, Success(false) when it goes on. */
    method PollOnce(completed: bool) returns (r: Result<bool, Error>, seen: bool)
      requires Valid() && (completed ==> Terminal())
      modifies this, service
      ensures service.Later(old(service.visible), old(service.terminalAt), old(service.now))
      ensures seen ==> Terminal()
      ensures r == Success(true) ==> old(service.visible) <= Position(service.log, cursor)
      ensures r == Success(true) && follow ==> Terminal() && service.terminalAt.value <= Position(service.log, cursor)
      ensures r.Success? ==> Valid()
      ensures r.Failure? ==> Failing(r.error)
    {
      var page := FetchPage();
      if page.Failure? {
        return Failure(page.error), completed;
      }
      r, seen := DeliverPage(page.value.0, completed);
      if r.Failure? {
        return;
      }
      r, seen := AfterPage(page.value.1, seen);
    }

    /** After a page was delivered: whether polling returns, and whether the Call was seen to be complete. */
    method AfterPage(more: bool, completed: bool) returns (r: Result<bool, Error>, seen: bool)
      requires Holding() && (completed ==> Terminal())
      requires if more then Settle(Left()) == FULL_BUDGET else Left().pending.Nothing?
      modifies this, service
      ensures After(old(cursor), old(service.visible), old(service.terminalAt), old(service.now))
      ensures seen ==> Terminal()
      ensures r == Success(true) ==> !more && (completed || !follow)
      ensures r.Success? ==> Valid()
      ensures r.Failure? ==> Failing(r.error)
    {
      seen := completed;
      if more {
        NoteProgress();
        return Success(false), seen;
      }
      if completed || !follow {
        return Success(true), seen;
      }
      r := AwaitMore();
      if r == Success(true) {
        return Success(false), true;
      }
    }

    /** One turn of the polling loop, with what its error, if any, costs. */
    method PollTurn(completed: bool) returns (outcome: Outcome, seen: bool)
      requires Valid() && (completed ==> Terminal())
      modifies this, service
      ensures Sound() && service.Later(old(service.visible), old(service.terminalAt), old(service.now))
      ensures seen ==> Terminal()
      ensures outcome.StillRunning? ==> Valid()
      ensures outcome.Returned? ==> old(service.visible) <= Position(service.log, cursor)
      ensures outcome.Returned? && follow ==> Terminal() && service.terminalAt.value <= Position(service.log, cursor)
      ensures outcome.Raised? ==> Justified(outcome.error, Left(), service.now, deadline)
    {
      var r;
      r, seen := PollOnce(completed);
      if r.Success? {
        return if r.value then Returned else StillRunning, seen;
      }
      var raised := Recover(r.error);
      outcome := if raised.Some? then Raised(raised.value) else StillRunning;
    }

    /** The polling loop, for at most `fuel` turns. */
    method Poll(completed: bool, fuel: nat) returns (outcome: Outcome)
      requires Valid() && (completed ==> Terminal())
      modifies this, service
      ensures Sound() && service.Later(old(service.visible), old(service.terminalAt), old(service.now))
      ensures outcome.Returned? ==> old(service.visible) <= Position(service.log, cursor)
      ensures outcome.Returned? && follow ==> Terminal() && service.terminalAt.value <= Position(service.log, cursor)
      ensures outcome.Raised? ==> Justified(outcome.error, Left(), service.now, deadline)
    {
      var seen := completed;
      for n := 0 to fuel
        invariant Valid() && (seen ==> Terminal())
        invariant service.Later(old(service.visible), old(service.terminalAt), old(service.now))
      {
        outcome, seen := PollTurn(seen);
        if !outcome.StillRunning? {
          return;
        }
      }
      return StillRunning;
    }

    /** Hands a transient error to the recovery budget; raises any other. */
    method Recover(error: Error) returns (raised: Option<Error>)
      requires Failing(error)
      modifies this`failures, this`recoveryDeadline, this`lastError
      modifies service`visible, service`terminalAt, service`now
      ensures Sound() && After(old(cursor), old(service.visible), old(service.terminalAt), old(service.now))
      ensures raised.None? ==> Valid() && Retried(error, old(failures), old(service.now))
      ensures raised.Some? ==> Justified(raised.value, Left(), service.now, deadline)
    {
      if !Caught(error) {
        return Some(error);
      }
      raised := Retry(error);
    }

    /** One stream, until it ends and the status was read: Success(true) when the Call is complete. */
    method StreamOnce(fuel: nat) returns (r: Result<bool, Error>, running: bool)
      requires Valid()
      modifies this, service
      ensures service.Later(old(service.visible), old(service.terminalAt), old(service.now))
      ensures r.Success? && r.value && !running ==> Terminal()
      ensures r.Success? ==> Valid()
      ensures r.Failure? ==> Failing(r.error)
    {
      running := false;
      var timeout := Remaining();
      if timeout.Failure? {
        FailsLate(timeout.error);
        return Failure(timeout.error), false;
      }
      ghost var record, sent := service.record, service.now;
      var reply := service.OpenStream();
      if reply.Refused? {
        Answered(record, sent, Failed(service.now, reply.error));
        FailsNow(reply.error);
        return Failure(reply.error), false;
      }
      Noted(record, Request(sent));
      r, running := ReadStream(fuel);
    }

    /** The events of an open stream, at most `fuel` of them, and the status when it closes. */
    method ReadStream(fuel: nat) returns (r: Result<bool, Error>, running: bool)
      requires Valid() && Holding()
      modifies this, service
      ensures service.Later(old(service.visible), old(service.terminalAt), old(service.now))
      ensures r.Success? && r.value && !running ==> Terminal()
      ensures r.Success? ==> Valid()
      ensures r.Failure? ==> Failing(r.error)
    {
      for n := 0 to fuel
        invariant Valid() && Holding()
        invariant service.Later(old(service.visible), old(service.terminalAt), old(service.now))
      {
        var end := ReadItem();
        if end.Some? {
          return end.value, false;
        }
      }
      return Success(false), true;
    }

    /** The next event of an open stream; when there is none, how the stream ended. */
    method ReadItem() returns (end: Option<Result<bool, Error>>)
      requires Valid() && Holding()
      modifies this, service
      ensures service.Later(old(service.visible), old(service.terminalAt), old(service.now))
      ensures end.None? ==> Valid() && Holding()
      ensures end.Some? && end.value.Success? ==> Valid() && Terminal()
      ensures end.Some? && end.value.Failure? ==> Failing(end.value.error)
    {
      ghost var record := service.record;
      var item := service.NextItem(Position(service.log, cursor));
      match item {
        case Next(event) =>
          assert service.record == record;
          var raised := Deliver(event);
          return if raised.Some? then Some(Failure(raised.value)) else None;
        case Cut(error) =>
          Noted(record, Failed(service.now, error));
          FailsNow(error);
          return Some(Failure(error));
        case Closed =>
          Noted(record, StreamEnded(service.now));
          var r := StreamClosed();
          return Some(r);
      }
    }

    /** After the stream ended: it is an error unless the Call is complete. */
    method StreamClosed() returns (r: Result<bool, Error>)
      requires Valid() && Left().pending.Ended?
      modifies service
      ensures service.Later(old(service.visible), old(service.terminalAt), old(service.now))
      ensures r.Success? ==> Valid() && Terminal()
      ensures r.Failure? ==> Failing(r.error)
    {
      r := Completed();
      if r == Success(false) {
        FailsNow(Transient);
        r := Failure(Transient);
      }
    }

    /**
     Any number of turns of the iterator. Whatever is cut, fails or is retried: what the
     consumer took is the log from the starting cursor on; every request that the
     service received was within the recovery budget that its own record leaves; a follow
     run that returns has delivered every event that was present when the Call became
     terminal; and an error is raised only when it cannot be retried, the budget is spent
     or a deadline has passed.
     */
    method Iterate(fuel: nat) returns (outcome: Outcome)
      requires Valid() && cursor == start && service.record == []
      modifies this, service
      ensures Paced(service.record, deadline) && Chronological(service.record, service.now)
      ensures var from, to := Position(service.log, start), Position(service.log, cursor);
        from <= to && Deliveries(service.record) == service.log[from..to]
      ensures outcome.Returned? ==> old(service.visible) <= Position(service.log, cursor)
      ensures outcome.Returned? && follow ==>
        service.terminalAt.Some? && service.terminalAt.value <= Position(service.log, cursor)
      ensures outcome.Raised? ==> Justified(outcome.error, BudgetOf(service.record), service.now, deadline)
    {
      if deadline.Some? || !follow {
        outcome := Poll(false, fuel);
        return;
      }
      var n := 0;
      while n < fuel
        invariant Valid() && service.Later(old(service.visible), old(service.terminalAt), old(service.now))
      {
        n := n + 1;
        var r, running := StreamOnce(fuel);
        if running {
          return StillRunning;
        }
        match r
        case Success(_) =>
          if r.value {
            outcome := Poll(true, fuel);
            return;
          }
        case Failure(error) =>
          var raised := Recover(error);
          if raised.Some? {
            return Raised(raised.value);
          }
      }
      return StillRunning;
    }
  }
}
