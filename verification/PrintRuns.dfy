/**
 Every run of the print shop: orders enqueue jobs, targets change, the clock
 ticks as it likes, sockets answer or fail, marks may throw, the process stops,
 starts and crashes.
 */
module PrintRuns {
  import opened Wrappers
  import opened PrintQueue
  import opened PrintWorker
  import opened TcpPrinter

  // One print call, in the order the calls were made, and the events it heard.
  datatype Attempt = Attempt(job: string, session: Session, heard: seq<Event>)

  // The calls before index `dead` belonged to processes that are gone.
  datatype Shop = Shop(worker: Worker, targets: map<string, Target>, calls: seq<Attempt>, dead: nat)

  datatype Move =
    | Enqueue(jobs: seq<NewJob>)
    | SetTargets(targets: map<string, Target>)
    | Tick(now: int, claimed: Option<string>, renders: bool, stored: bool)
    | Wire(call: nat, event: Event)
    | Resume(stored: bool, caught: bool)
    | StartPolling
    | StopPolling
    | Crash

  const EMPTY: Shop := Shop(Worker(map[], false, None), map[], [], 0)

  function Last(s: Shop): Session
    requires s.calls != []
  {
    s.calls[|s.calls| - 1].session
  }

  predicate Legal(s: Shop, m: Move) {
    match m
    case Tick(now, claimed, _, _) =>
      s.worker.flight.Some?
      || (claimed.Some? && IsNext(s.worker.rows, now, claimed.value))
      || (claimed.None? && NothingToClaim(s.worker.rows, now))
    case Wire(call, _) => s.dead <= call < |s.calls|
    case Resume(_, _) => s.worker.flight.Some? && s.calls != [] && Last(s).reply.Some?
    case _ => true
  }

  function Dispatched(s: Shop, now: int, id: string, renders: bool, stored: bool): Shop
    requires id in s.worker.rows
  {
    var target := ActiveTarget(s.targets, s.worker.rows[id].target);
    s.(worker := Dispatch(s.worker, now, id, target, stored),
       calls := if target.Some? then s.calls + [Attempt(id, Open(target.value, renders), [])] else s.calls)
  }

  function Heard(c: Attempt, e: Event): Attempt { c.(session := React(c.session, e), heard := c.heard + [e]) }

  function Step(o: Options, s: Shop, m: Move): Shop
    requires Legal(s, m)
  {
    match m
    case Enqueue(jobs) => s.(worker := s.worker.(rows := Inserted(s.worker.rows, jobs, s.targets.Keys)))
    case SetTargets(targets) => s.(targets := targets)
    case Tick(now, claimed, renders, stored) =>
      if s.worker.flight.Some? || claimed.None? then s else Dispatched(s, now, claimed.value, renders, stored)
    case Wire(k, e) => s.(calls := s.calls[k := Heard(s.calls[k], e)])
    case Resume(stored, caught) => s.(worker := Conclude(s.worker, o, Last(s).reply.value, stored, caught))
    case StartPolling => s.(worker := Start(s.worker))
    case StopPolling => s.(worker := s.worker.(polling := false))
    case Crash => s.(worker := s.worker.(polling := false, flight := None), dead := |s.calls|)
  }

  predicate LegalRun(o: Options, s: Shop, ms: seq<Move>)
    decreases |ms|
  {
    ms == [] || (Legal(s, ms[0]) && LegalRun(o, Step(o, s, ms[0]), ms[1..]))
  }

  function Run(o: Options, s: Shop, ms: seq<Move>): Shop
    requires LegalRun(o, s, ms)
    decreases |ms|
  {
    if ms == [] then s else Run(o, Step(o, s, ms[0]), ms[1..])
  }

  // The one fault the worker does not survive: the mark after a delivery throws
  // inside the try clause, and the catch clause takes it for a failed print with
  // attempts left.
  predicate MisfilesDelivery(o: Options, s: Shop, m: Move)
    requires Legal(s, m)
  {
    && m.Resume? && Last(s).reply.value.Resolved? && !m.stored && m.caught
    && s.worker.flight.value.attempts < o.maxAttempts
  }

  predicate FilesDeliveries(o: Options, s: Shop, ms: seq<Move>)
    requires LegalRun(o, s, ms)
    decreases |ms|
  {
    ms == [] || (!MisfilesDelivery(o, s, ms[0]) && FilesDeliveries(o, Step(o, s, ms[0]), ms[1..]))
  }

  /* ---- The invariant ---- */

  // Settled, with nothing sent.
  predicate Spent(s: Session) { s.reply.Some? && s.handed == 0 }

  // A job that comes up for an attempt, now or later.
  predicate Waiting(r: Row) { r.status.Pending? || (r.status.Failed? && r.next.Some?) }

  predicate InFlight(s: Shop, k: nat) { s.worker.flight.Some? && k == |s.calls| - 1 }

  ghost predicate CallInv(s: Shop, k: nat)
    requires k < |s.calls|
  {
    var c := s.calls[k];
    && Truthful(c.session)
    && c.job in s.worker.rows
    && (Waiting(s.worker.rows[c.job]) ==> Spent(c.session))
    && (s.dead <= k && c.session.reply.None? ==> InFlight(s, k))
  }

  ghost predicate CallsInv(s: Shop) {
    && s.dead <= |s.calls|
    && (forall k: nat | k < |s.calls| :: CallInv(s, k))
  }

  // Of the calls for one job only the last can have sent anything.
  ghost predicate OnlyLastSends(calls: seq<Attempt>) {
    forall j, k | 0 <= j < k < |calls| && calls[j].job == calls[k].job :: Spent(calls[j].session)
  }

  predicate FlightInv(s: Shop) {
    s.worker.flight.Some? ==>
      var f := s.worker.flight.value;
      && s.dead < |s.calls| && s.calls[|s.calls| - 1].job == f.job
      && f.job in s.worker.rows && s.worker.rows[f.job].attempts == f.attempts
      && s.worker.rows[f.job].status in {Sending, Unknown}
  }

  function Limit(o: Options): int { if o.maxAttempts < 1 then 1 else o.maxAttempts }

  predicate RowInv(o: Options, r: Row) {
    && r.attempts <= Limit(o)
    && (r.status.Pending? ==> r.attempts == 0)
    && (r.status.Failed? && r.next.Some? ==> r.attempts < o.maxAttempts)
  }

  ghost predicate RowsInv(o: Options, rows: Rows) {
    DistinctKeys(rows) && forall id | id in rows :: RowInv(o, rows[id])
  }

  function CallsFor(calls: seq<Attempt>, id: string): nat {
    if calls == [] then 0
    else CallsFor(calls[..|calls| - 1], id) + if calls[|calls| - 1].job == id then 1 else 0
  }

  ghost predicate Counted(s: Shop) {
    forall id | id in s.worker.rows :: CallsFor(s.calls, id) <= s.worker.rows[id].attempts
  }

  ghost predicate Sent(calls: seq<Attempt>, id: string) {
    exists k: nat :: k < |calls| && calls[k].job == id && calls[k].session.handed > 0
  }

  ghost predicate DeliveriesSent(s: Shop) {
    forall id | id in s.worker.rows && s.worker.rows[id].status.Delivered? :: Sent(s.calls, id)
  }

  ghost predicate ShopInv(o: Options, s: Shop) {
    && CallsInv(s)
    && OnlyLastSends(s.calls)
    && FlightInv(s)
    && RowsInv(o, s.worker.rows)
    && Counted(s)
    && DeliveriesSent(s)
  }

  /* ---- Each move keeps it ---- */

  predicate SameKeys(before: Rows, after: Rows) {
    before.Keys == after.Keys && forall id | id in before :: after[id].dedupe == before[id].dedupe
  }

  lemma SameKeysStayDistinct(before: Rows, after: Rows)
    requires SameKeys(before, after) && DistinctKeys(before)
    ensures DistinctKeys(after)
  {}

  lemma {:induction false} NoCallsYet(calls: seq<Attempt>, id: string)
    requires forall k | 0 <= k < |calls| :: calls[k].job != id
    ensures CallsFor(calls, id) == 0
  {
    if calls != [] { NoCallsYet(calls[..|calls| - 1], id); }
  }

  lemma {:induction false} EnqueueKeepsInv(o: Options, s: Shop, jobs: seq<NewJob>)
    requires ShopInv(o, s)
    ensures ShopInv(o, Step(o, s, Enqueue(jobs)))
  {
    var rows := s.worker.rows;
    var t := Step(o, s, Enqueue(jobs));
    InsertKeepsKeys(rows, jobs, s.targets.Keys);
    assert Extends(rows, t.worker.rows);
    forall k: nat | k < |t.calls|
      ensures CallInv(t, k)
    {
      assert CallInv(s, k);
    }
    forall id | id in t.worker.rows
      ensures RowInv(o, t.worker.rows[id]) && CallsFor(t.calls, id) <= t.worker.rows[id].attempts
    {
      if id !in rows {
        forall k | 0 <= k < |s.calls|
          ensures s.calls[k].job != id
        {
          assert CallInv(s, k);
        }
        NoCallsYet(s.calls, id);
      }
    }
  }

  lemma {:induction false} SameJobsSameCount(a: seq<Attempt>, b: seq<Attempt>, id: string)
    requires |a| == |b| && forall i | 0 <= i < |a| :: a[i].job == b[i].job
    ensures CallsFor(a, id) == CallsFor(b, id)
  {
    if a != [] { SameJobsSameCount(a[..|a| - 1], b[..|b| - 1], id); }
  }

  lemma {:induction false} WireKeepsInv(o: Options, s: Shop, k: nat, e: Event)
    requires ShopInv(o, s) && s.dead <= k < |s.calls|
    ensures ShopInv(o, Step(o, s, Wire(k, e)))
  {
    var t := Step(o, s, Wire(k, e));
    var before, after := s.calls[k].session, t.calls[k].session;
    assert CallInv(s, k);
    ReactKeepsTruth(before, e);
    forall i: nat | i < |t.calls|
      ensures CallInv(t, i)
    {
      assert CallInv(s, i);
    }
    forall id | id in t.worker.rows
      ensures CallsFor(t.calls, id) <= t.worker.rows[id].attempts
    {
      SameJobsSameCount(s.calls, t.calls, id);
    }
    forall id | id in t.worker.rows && t.worker.rows[id].status.Delivered?
      ensures Sent(t.calls, id)
    {
      var i: nat :| i < |s.calls| && s.calls[i].job == id && s.calls[i].session.handed > 0;
      assert t.calls[i].session.handed > 0;
    }
  }

  lemma {:induction false} TickKeepsInv(o: Options, s: Shop, now: int, id: string, renders: bool, stored: bool)
    requires ShopInv(o, s) && s.worker.flight.None? && IsNext(s.worker.rows, now, id)
    ensures ShopInv(o, Dispatched(s, now, id, renders, stored))
  {
    TickKeepsCalls(o, s, now, id, renders, stored);
    TickKeepsRows(o, s, now, id, renders, stored);
    TickKeepsCount(s, now, id, renders, stored);
    TickKeepsDeliveries(s, now, id, renders, stored);
  }

  // The job claimed has only spent calls behind it.
  lemma {:induction false} TickKeepsCalls(o: Options, s: Shop, now: int, id: string, renders: bool, stored: bool)
    requires ShopInv(o, s) && s.worker.flight.None? && IsNext(s.worker.rows, now, id)
    ensures var t := Dispatched(s, now, id, renders, stored);
            CallsInv(t) && OnlyLastSends(t.calls) && FlightInv(t)
  {
    var t := Dispatched(s, now, id, renders, stored);
    var target := ActiveTarget(s.targets, s.worker.rows[id].target);
    if target.Some? { OpenIsTruthful(target.value, renders); }
    forall k: nat | k < |t.calls|
      ensures CallInv(t, k)
    {
      if k < |s.calls| { assert CallInv(s, k) && t.calls[k] == s.calls[k]; }
    }
    forall j, k | 0 <= j < k < |t.calls| && t.calls[j].job == t.calls[k].job
      ensures Spent(t.calls[j].session)
    {
      assert CallInv(s, j);
    }
  }

  lemma {:induction false} TickKeepsRows(o: Options, s: Shop, now: int, id: string, renders: bool, stored: bool)
    requires RowsInv(o, s.worker.rows) && IsNext(s.worker.rows, now, id)
    ensures RowsInv(o, Dispatched(s, now, id, renders, stored).worker.rows)
  {
    var before, after := s.worker.rows, Dispatched(s, now, id, renders, stored).worker.rows;
    SameKeysStayDistinct(before, after);
    forall other | other in after
      ensures RowInv(o, after[other])
    {
      assert RowInv(o, before[other]);
    }
  }

  lemma {:induction false} TickKeepsCount(s: Shop, now: int, id: string, renders: bool, stored: bool)
    requires Counted(s) && IsNext(s.worker.rows, now, id)
    ensures Counted(Dispatched(s, now, id, renders, stored))
  {
    var t := Dispatched(s, now, id, renders, stored);
    assert t.calls[..|s.calls|] == s.calls;
    assert t.worker.rows[id].attempts == s.worker.rows[id].attempts + 1;
  }

  lemma {:induction false} TickKeepsDeliveries(s: Shop, now: int, id: string, renders: bool, stored: bool)
    requires DeliveriesSent(s) && IsNext(s.worker.rows, now, id)
    ensures DeliveriesSent(Dispatched(s, now, id, renders, stored))
  {
    var t := Dispatched(s, now, id, renders, stored);
    forall other | other in t.worker.rows && t.worker.rows[other].status.Delivered?
      ensures Sent(t.calls, other)
    {
      var i: nat :| i < |s.calls| && s.calls[i].job == other && s.calls[i].session.handed > 0;
      assert t.calls[i] == s.calls[i];
    }
  }

  lemma {:induction false} ResumeKeepsInv(o: Options, s: Shop, stored: bool, caught: bool)
    requires ShopInv(o, s) && Legal(s, Resume(stored, caught)) && !MisfilesDelivery(o, s, Resume(stored, caught))
    ensures ShopInv(o, Step(o, s, Resume(stored, caught)))
  {
    ResumeKeepsCalls(o, s, stored, caught);
    ResumeKeepsRows(o, s, stored, caught);
    ResumeKeepsDeliveries(o, s, stored, caught);
  }

  lemma {:induction false} ResumeKeepsCalls(o: Options, s: Shop, stored: bool, caught: bool)
    requires ShopInv(o, s) && Legal(s, Resume(stored, caught)) && !MisfilesDelivery(o, s, Resume(stored, caught))
    ensures var t := Step(o, s, Resume(stored, caught)); CallsInv(t) && OnlyLastSends(t.calls) && FlightInv(t)
  {
    var t := Step(o, s, Resume(stored, caught));
    var f, last: nat := s.worker.flight.value, |s.calls| - 1;
    assert CallInv(s, last);
    forall k: nat | k < |t.calls|
      ensures CallInv(t, k)
    {
      assert CallInv(s, k);
      assert k < last && s.calls[k].job == f.job ==> Spent(s.calls[k].session);
    }
  }

  lemma {:induction false} ResumeKeepsRows(o: Options, s: Shop, stored: bool, caught: bool)
    requires Legal(s, Resume(stored, caught)) && FlightInv(s) && RowsInv(o, s.worker.rows) && Counted(s)
    ensures var t := Step(o, s, Resume(stored, caught)); RowsInv(o, t.worker.rows) && Counted(t)
  {
    var t := Step(o, s, Resume(stored, caught));
    var id := s.worker.flight.value.job;
    var row := t.worker.rows[id];
    assert RowInv(o, s.worker.rows[id]);
    assert t.worker.rows == Mark(s.worker.rows, id, row.status, row.next);
    MarkKeepsRows(o, s, id, row.status, row.next);
  }

  lemma MarkKeepsRows(o: Options, s: Shop, id: string, status: Status, next: Option<int>)
    requires RowsInv(o, s.worker.rows) && Counted(s) && id in s.worker.rows
    requires RowInv(o, s.worker.rows[id].(status := status, next := next))
    ensures var t := s.(worker := s.worker.(rows := Mark(s.worker.rows, id, status, next)));
            RowsInv(o, t.worker.rows) && Counted(t)
  {
    SameKeysStayDistinct(s.worker.rows, Mark(s.worker.rows, id, status, next));
  }

  lemma {:induction false} ResumeKeepsDeliveries(o: Options, s: Shop, stored: bool, caught: bool)
    requires Legal(s, Resume(stored, caught)) && FlightInv(s) && CallsInv(s) && DeliveriesSent(s)
    ensures DeliveriesSent(Step(o, s, Resume(stored, caught)))
  {
    var t := Step(o, s, Resume(stored, caught));
    var last: nat := |s.calls| - 1;
    assert CallInv(s, last);
    forall id | id in t.worker.rows && t.worker.rows[id].status.Delivered?
      ensures Sent(t.calls, id)
    {
      if id == s.worker.flight.value.job { assert t.calls[last].session.handed > 0; }
    }
  }

  lemma {:induction false} QuietMovesKeepInv(o: Options, s: Shop, m: Move)
    requires ShopInv(o, s) && (m.SetTargets? || m.StopPolling? || m.Crash?)
    ensures ShopInv(o, Step(o, s, m))
  {
    var t := Step(o, s, m);
    forall k: nat | k < |t.calls|
      ensures CallInv(t, k)
    {
      assert CallInv(s, k);
    }
  }

  // Recovery turns every interrupted job into one in doubt, nothing else.
  lemma {:induction false} StartKeepsInv(o: Options, s: Shop)
    requires ShopInv(o, s)
    ensures ShopInv(o, Step(o, s, StartPolling))
  {
    var t := Step(o, s, StartPolling);
    forall k: nat | k < |t.calls|
      ensures CallInv(t, k)
    {
      assert CallInv(s, k);
    }
    RecoverKeepsRows(o, s);
  }

  lemma {:induction false} RecoverKeepsRows(o: Options, s: Shop)
    requires RowsInv(o, s.worker.rows) && Counted(s)
    ensures var t := s.(worker := s.worker.(rows := Recover(s.worker.rows)));
            RowsInv(o, t.worker.rows) && Counted(t)
  {
    var rows := Recover(s.worker.rows);
    forall id | id in rows
      ensures RowInv(o, rows[id])
    {
      assert RowInv(o, s.worker.rows[id]);
    }
    SameKeysStayDistinct(s.worker.rows, rows);
  }

  lemma {:induction false} StepKeepsInv(o: Options, s: Shop, m: Move)
    requires ShopInv(o, s) && Legal(s, m) && !MisfilesDelivery(o, s, m)
    ensures ShopInv(o, Step(o, s, m))
  {
    match m {
      case Enqueue(jobs) => EnqueueKeepsInv(o, s, jobs);
      case Tick(now, claimed, renders, stored) =>
        if s.worker.flight.None? && claimed.Some? { TickKeepsInv(o, s, now, claimed.value, renders, stored); }
      case Wire(k, e) => WireKeepsInv(o, s, k, e);
      case Resume(stored, caught) => ResumeKeepsInv(o, s, stored, caught);
      case StartPolling => StartKeepsInv(o, s);
      case _ => QuietMovesKeepInv(o, s, m);
    }
  }

  lemma {:induction false} RunKeepsInv(o: Options, s: Shop, ms: seq<Move>)
    requires ShopInv(o, s) && LegalRun(o, s, ms) && FilesDeliveries(o, s, ms)
    ensures ShopInv(o, Run(o, s, ms))
    decreases |ms|
  {
    if ms != [] {
      StepKeepsInv(o, s, ms[0]);
      RunKeepsInv(o, Step(o, s, ms[0]), ms[1..]);
    }
  }

  /* ---- What holds in every run ---- */

  // However the sockets and the worker interleave, two calls for jobs with one
  // deduplication key never both send, and no call sends twice.
  lemma {:induction false} NoDuplicateTransmission(o: Options, ms: seq<Move>, j: nat, k: nat)
    requires LegalRun(o, EMPTY, ms) && FilesDeliveries(o, EMPTY, ms)
    requires j < k < |Run(o, EMPTY, ms).calls|
    ensures
      var s := Run(o, EMPTY, ms);
      var a, b := s.calls[j], s.calls[k];
      && a.job in s.worker.rows && b.job in s.worker.rows
      && (s.worker.rows[a.job].dedupe == s.worker.rows[b.job].dedupe ==>
            a.job == b.job && a.session.handed == 0 && b.session.handed <= 1)
  {
    RunKeepsInv(o, EMPTY, ms);
    var s := Run(o, EMPTY, ms);
    assert CallInv(s, j) && CallInv(s, k);
  }

  // The status of a job says what the wire saw: one that waits for an attempt was
  // never sent, whatever the clock says; one that was delivered was sent.
  lemma {:induction false} StatusTellsTheTruth(o: Options, ms: seq<Move>, id: string, now: int)
    requires LegalRun(o, EMPTY, ms) && FilesDeliveries(o, EMPTY, ms)
    requires id in Run(o, EMPTY, ms).worker.rows
    ensures
      var s := Run(o, EMPTY, ms);
      var row := s.worker.rows[id];
      && (Waiting(row) ==> !Sent(s.calls, id))
      && (row.status.Delivered? ==> Sent(s.calls, id))
      && (Sent(s.calls, id) ==> !Claimable(row, now))
      && CallsFor(s.calls, id) <= row.attempts <= Limit(o)
  {
    RunKeepsInv(o, EMPTY, ms);
    var s := Run(o, EMPTY, ms);
    assert RowInv(o, s.worker.rows[id]);
    if Sent(s.calls, id) {
      var k: nat :| k < |s.calls| && s.calls[k].job == id && s.calls[k].session.handed > 0;
      assert CallInv(s, k);
    }
  }

  // A failed print is scheduled again exactly when nothing was handed to the
  // printer and attempts remain.
  lemma {:induction false} RetryExactlyWhenSafe(o: Options, s: Shop)
    requires ShopInv(o, s) && Legal(s, Resume(true, true))
    ensures
      var f := s.worker.flight.value;
      var row := Step(o, s, Resume(true, true)).worker.rows[f.job];
      && (row.status.Delivered? <==> Last(s).reply == Some(Resolved(true)))
      && (row.status.Unknown? <==> Last(s).reply in {Some(Rejected(true)), Some(Resolved(false))})
      && (row.status.Failed? <==> Last(s).handed == 0)
      && (row.next.Some? <==> Last(s).handed == 0 && f.attempts < o.maxAttempts)
      && (row.next.Some? ==> row.next.value == f.at + o.retryDelay * f.attempts)
  {
    var last: nat := |s.calls| - 1;
    assert CallInv(s, last);
  }

  // With marks that may throw: a job that was sent comes up for another attempt
  // exactly when its delivery was misfiled.
  lemma {:induction false} ResentExactlyWhenMisfiled(o: Options, s: Shop, stored: bool, caught: bool)
    requires ShopInv(o, s) && Legal(s, Resume(stored, caught))
    ensures
      var f := s.worker.flight.value;
      var t := Step(o, s, Resume(stored, caught));
      (Sent(t.calls, f.job) && exists now :: Claimable(t.worker.rows[f.job], now))
      <==>
      MisfilesDelivery(o, s, Resume(stored, caught))
  {
    var f, last: nat := s.worker.flight.value, |s.calls| - 1;
    var t := Step(o, s, Resume(stored, caught));
    assert CallInv(s, last);
    var row := t.worker.rows[f.job];
    if MisfilesDelivery(o, s, Resume(stored, caught)) {
      assert t.calls[last].session.handed > 0;
      assert Claimable(row, row.next.value);
    } else if Sent(t.calls, f.job) {
      var k: nat :| k < |t.calls| && t.calls[k].job == f.job && t.calls[k].session.handed > 0;
      assert k == last;
      forall now
        ensures !Claimable(row, now)
      {}
    }
  }

  ghost predicate NoSentJobWaits(s: Shop) {
    forall id | id in s.worker.rows && Sent(s.calls, id) :: !Waiting(s.worker.rows[id])
  }

  // So it is from here on, at every step.
  ghost predicate SentJobsNeverWait(o: Options, s: Shop, ms: seq<Move>)
    requires LegalRun(o, s, ms)
    decreases |ms|
  {
    NoSentJobWaits(s) && (ms == [] || SentJobsNeverWait(o, Step(o, s, ms[0]), ms[1..]))
  }

  lemma {:induction false} SentIsNotWaiting(o: Options, s: Shop)
    requires ShopInv(o, s)
    ensures NoSentJobWaits(s)
  {
    forall id | id in s.worker.rows && Sent(s.calls, id)
      ensures !Waiting(s.worker.rows[id])
    {
      var k: nat :| k < |s.calls| && s.calls[k].job == id && s.calls[k].session.handed > 0;
      assert CallInv(s, k);
    }
  }

  lemma {:induction false} MisfilingBreaksIt(o: Options, s: Shop, m: Move)
    requires ShopInv(o, s) && Legal(s, m) && MisfilesDelivery(o, s, m)
    ensures !NoSentJobWaits(Step(o, s, m))
  {
    ResentExactlyWhenMisfiled(o, s, m.stored, m.caught);
    assert Waiting(Step(o, s, m).worker.rows[s.worker.flight.value.job]);
  }

  lemma {:induction false} SentJobsNeverWaitFrom(o: Options, s: Shop, ms: seq<Move>)
    requires ShopInv(o, s) && LegalRun(o, s, ms)
    ensures SentJobsNeverWait(o, s, ms) <==> FilesDeliveries(o, s, ms)
    decreases |ms|
  {
    SentIsNotWaiting(o, s);
    if ms != [] {
      if MisfilesDelivery(o, s, ms[0]) {
        MisfilingBreaksIt(o, s, ms[0]);
      } else {
        StepKeepsInv(o, s, ms[0]);
        SentJobsNeverWaitFrom(o, Step(o, s, ms[0]), ms[1..]);
      }
    }
  }

  // Over every run, throwing marks included: no job that was sent ever comes up
  // for another attempt if and only if no delivery was misfiled.
  lemma {:induction false} SentJobsNeverWaitExactly(o: Options, ms: seq<Move>)
    requires LegalRun(o, EMPTY, ms)
    ensures SentJobsNeverWait(o, EMPTY, ms) <==> FilesDeliveries(o, EMPTY, ms)
  {
    SentJobsNeverWaitFrom(o, EMPTY, ms);
  }

  lemma {:induction false} RunStarts(o: Options, s: Shop, m: Move, ms: seq<Move>)
    requires Legal(s, m) && LegalRun(o, Step(o, s, m), ms)
    ensures LegalRun(o, s, [m] + ms) && Run(o, s, [m] + ms) == Run(o, Step(o, s, m), ms)
  {
    assert ([m] + ms)[1..] == ms;
  }

  lemma {:induction false} RunsJoin(o: Options, s: Shop, ms: seq<Move>, ns: seq<Move>)
    requires LegalRun(o, s, ms) && LegalRun(o, Run(o, s, ms), ns)
    ensures LegalRun(o, s, ms + ns) && Run(o, s, ms + ns) == Run(o, Run(o, s, ms), ns)
    decreases |ms|
  {
    if ms == [] {
      assert ms + ns == ns;
    } else {
      RunsJoin(o, Step(o, s, ms[0]), ms[1..], ns);
      RunStarts(o, s, ms[0], ms[1..] + ns);
      assert [ms[0]] + (ms[1..] + ns) == ms + ns;
    }
  }

  const SHOP_OPTIONS: Options := Options(2000, 3)
  const PRINTER: Target := Target(true, Some("printer"), Some(9100))
  const TICKET: NewJob := NewJob("job", 0, "ticket", Some("till"))
  const CLAIMED: Row := Claim(NewRow(TICKET))

  const DONE: Session := Session(true, NoTimer, true, 1, Some(Resolved(true)))
  const OPEN_CALL: Attempt := Attempt("job", OPENED, [])
  const DELIVERED_CALL: Attempt := Attempt("job", DONE, [Connect, Ended(false)])

  function Afternoon(row: Row, flight: Option<Flight>, calls: seq<Attempt>): Shop {
    Shop(Worker(map["job" := row], false, flight), map["till" := PRINTER], calls, 0)
  }

  lemma FirstInsert(targets: set<string>)
    requires "till" in targets
    ensures Inserted(map[], [TICKET], targets) == map["job" := NewRow(TICKET)]
  {
    var rows: Rows, jobs := map[], [TICKET];
    assert jobs[1..] == [];
    assert !KeyTaken(rows, TICKET.dedupe) && Storable(rows, TICKET, targets);
    var stored := rows["job" := NewRow(TICKET)];
    assert InsertOne(rows, jobs[0], targets) == Some(stored);
    assert InsertAll(rows, jobs, targets) == InsertAll(stored, jobs[1..], targets);
  }

  lemma {:induction false} OneClaim() returns (ms: seq<Move>)
    ensures LegalRun(SHOP_OPTIONS, EMPTY, ms)
    ensures Run(SHOP_OPTIONS, EMPTY, ms) ==
              Afternoon(CLAIMED, Some(Flight("job", 1, 0)), [OPEN_CALL])
  {
    var m0, m1, m2 := SetTargets(map["till" := PRINTER]), Enqueue([TICKET]), Tick(0, Some("job"), true, true);
    var s1 := Step(SHOP_OPTIONS, EMPTY, m0);
    var s2 := Step(SHOP_OPTIONS, s1, m1);
    FirstInsert(s1.targets.Keys);
    assert s2 == Afternoon(NewRow(TICKET), None, []);
    var s3 := Step(SHOP_OPTIONS, s2, m2);
    assert s3 == Afternoon(CLAIMED, Some(Flight("job", 1, 0)), [OPEN_CALL]);
    RunStarts(SHOP_OPTIONS, s2, m2, []);
    RunStarts(SHOP_OPTIONS, s1, m1, [m2] + []);
    RunStarts(SHOP_OPTIONS, EMPTY, m0, [m1] + ([m2] + []));
    ms := [m0] + ([m1] + ([m2] + []));
  }

  lemma {:induction false} DeliveredButMisfiled() returns (ms: seq<Move>)
    ensures var s := Afternoon(CLAIMED, Some(Flight("job", 1, 0)), [OPEN_CALL]);
            LegalRun(SHOP_OPTIONS, s, ms) && Run(SHOP_OPTIONS, s, ms) ==
              Afternoon(CLAIMED.(status := Failed, next := Some(2000)), None, [DELIVERED_CALL])
  {
    var s := Afternoon(CLAIMED, Some(Flight("job", 1, 0)), [OPEN_CALL]);
    var m0, m1, m2 := Wire(0, Connect), Wire(0, Ended(false)), Resume(false, true);
    var s1 := Step(SHOP_OPTIONS, s, m0);
    assert s1.calls == [Heard(OPEN_CALL, Connect)];
    var s2 := Step(SHOP_OPTIONS, s1, m1);
    assert s2.calls[0].heard == [Connect, Ended(false)];
    assert s2 == Afternoon(CLAIMED, Some(Flight("job", 1, 0)), [DELIVERED_CALL]);
    var s3 := Step(SHOP_OPTIONS, s2, m2);
    RunStarts(SHOP_OPTIONS, s2, m2, []);
    RunStarts(SHOP_OPTIONS, s1, m1, [m2] + []);
    RunStarts(SHOP_OPTIONS, s, m0, [m1] + ([m2] + []));
    ms := [m0] + ([m1] + ([m2] + []));
  }

  lemma {:induction false} SecondPrint() returns (ms: seq<Move>)
    ensures
      var s := Afternoon(CLAIMED.(status := Failed, next := Some(2000)), None, [DELIVERED_CALL]);
      LegalRun(SHOP_OPTIONS, s, ms) && TwoPrints(Run(SHOP_OPTIONS, s, ms).calls)
  {
    var s := Afternoon(CLAIMED.(status := Failed, next := Some(2000)), None, [DELIVERED_CALL]);
    var m0, m1 := Tick(2000, Some("job"), true, true), Wire(1, Connect);
    var s1 := Step(SHOP_OPTIONS, s, m0);
    assert s1.calls == [DELIVERED_CALL, OPEN_CALL];
    RunStarts(SHOP_OPTIONS, s1, m1, []);
    RunStarts(SHOP_OPTIONS, s, m0, [m1] + []);
    ms := [m0] + ([m1] + []);
  }

  predicate TwoPrints(calls: seq<Attempt>) {
    |calls| == 2 && calls[0].job == calls[1].job && calls[0].session.handed == 1 && calls[1].session.handed == 1
  }

  // And it does happen: one mark that throws after a delivery, and the ticket is
  // printed twice.
  lemma {:induction false} MisfiledDeliveryPrintsTwice() returns (ms: seq<Move>)
    ensures LegalRun(SHOP_OPTIONS, EMPTY, ms) && TwoPrints(Run(SHOP_OPTIONS, EMPTY, ms).calls)
  {
    var first := OneClaim();
    var second := DeliveredButMisfiled();
    var third := SecondPrint();
    RunsJoin(SHOP_OPTIONS, EMPTY, first, second);
    RunsJoin(SHOP_OPTIONS, EMPTY, first + second, third);
    ms := first + second + third;
  }

  /* ---- Jobs that are over stay over ---- */

  predicate Over(r: Row) {
    r.status.Delivered? || r.status.Unknown? || (r.status.Failed? && r.next.None?)
  }

  predicate Settled(s: Shop, id: string) {
    && id in s.worker.rows && Over(s.worker.rows[id])
    && (s.worker.flight.Some? ==> s.worker.flight.value.job != id)
  }

  // No move touches a job that is over: not a restart, not a failing mark, not a
  // command that carries its key again.
  lemma {:induction false} StepLeavesSettled(o: Options, s: Shop, m: Move, id: string)
    requires Legal(s, m) && Settled(s, id) && DistinctKeys(s.worker.rows)
    ensures var t := Step(o, s, m); Settled(t, id) && t.worker.rows[id] == s.worker.rows[id]
  {
    if m.Enqueue? { InsertKeepsKeys(s.worker.rows, m.jobs, s.targets.Keys); } else { StepLeavesOver(o, s, m, id); }
  }

  lemma {:induction false} StepLeavesOver(o: Options, s: Shop, m: Move, id: string)
    requires Legal(s, m) && Settled(s, id) && !m.Enqueue?
    ensures var t := Step(o, s, m); Settled(t, id) && t.worker.rows[id] == s.worker.rows[id]
  {}

  lemma {:induction false} StepKeepsKeys(o: Options, s: Shop, m: Move)
    requires Legal(s, m) && DistinctKeys(s.worker.rows)
    ensures DistinctKeys(Step(o, s, m).worker.rows)
  {
    match m {
      case Enqueue(jobs) => InsertKeepsKeys(s.worker.rows, jobs, s.targets.Keys);
      case _ =>
        StepKeepsKeyOfEachRow(o, s, m);
        SameKeysStayDistinct(s.worker.rows, Step(o, s, m).worker.rows);
    }
  }

  lemma {:induction false} StepKeepsKeyOfEachRow(o: Options, s: Shop, m: Move)
    requires Legal(s, m) && !m.Enqueue?
    ensures SameKeys(s.worker.rows, Step(o, s, m).worker.rows)
  {}

  lemma {:induction false} SettledForGood(o: Options, s: Shop, ms: seq<Move>, id: string)
    requires LegalRun(o, s, ms) && Settled(s, id) && DistinctKeys(s.worker.rows)
    ensures Settled(Run(o, s, ms), id) && Run(o, s, ms).worker.rows[id] == s.worker.rows[id]
    decreases |ms|
  {
    if ms != [] {
      StepLeavesSettled(o, s, ms[0], id);
      StepKeepsKeys(o, s, ms[0]);
      SettledForGood(o, Step(o, s, ms[0]), ms[1..], id);
    }
  }

  // After a crash and a start, every job that was being sent is in doubt, and no
  // run from there on tries it again.
  lemma {:induction false} InterruptedStaysInDoubt(o: Options, s: Shop, ms: seq<Move>, id: string)
    requires DistinctKeys(s.worker.rows) && id in s.worker.rows && s.worker.rows[id].status.Sending?
    requires LegalRun(o, Step(o, Step(o, s, Crash), StartPolling), ms)
    ensures var t := Run(o, Step(o, Step(o, s, Crash), StartPolling), ms);
            id in t.worker.rows && t.worker.rows[id] == s.worker.rows[id].(status := Unknown, next := None)
  {
    var t := Step(o, Step(o, s, Crash), StartPolling);
    assert DistinctKeys(t.worker.rows);
    SettledForGood(o, t, ms, id);
  }
}
