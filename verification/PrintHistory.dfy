/**
 The history behind every print job and every print call, over every run, marks
 that throw included: which move gave a job its status, and which tick a call.
 */
module PrintHistory {
  import opened Wrappers
  import opened PrintQueue
  import opened PrintWorker
  import opened TcpPrinter
  import opened PrintRuns

  /* ---- What one move gives a job ---- */

  predicate HasActiveTarget(s: Shop, id: string)
    requires id in s.worker.rows
  {
    var target := s.worker.rows[id].target;
    target.Some? && target.value in s.targets && s.targets[target.value].active
  }

  predicate ClaimsNow(s: Shop, m: Move, id: string) {
    m.Tick? && s.worker.flight.None? && m.claimed == Some(id)
  }

  // The call for this job has been answered, and a mark goes through.
  predicate FilesNow(s: Shop, m: Move, id: string) {
    && m.Resume? && s.worker.flight.Some? && s.worker.flight.value.job == id
    && s.calls != [] && Last(s).reply.Some?
    && ((m.stored && Last(s).reply.value.Resolved?) || m.caught)
  }

  predicate Interrupts(s: Shop, m: Move, id: string) {
    m.StartPolling? && !s.worker.polling && id in s.worker.rows && s.worker.rows[id].status.Sending?
  }

  predicate Touches(s: Shop, m: Move, id: string) {
    (m.Enqueue? && id !in s.worker.rows) || ClaimsNow(s, m, id) || FilesNow(s, m, id) || Interrupts(s, m, id)
  }

  function StatusGiven(s: Shop, m: Move, id: string): Status
    requires Touches(s, m, id) && Legal(s, m)
  {
    if m.Enqueue? then Pending
    else if m.StartPolling? then Unknown
    else if m.Tick? then if HasActiveTarget(s, id) || !m.stored then Sending else Failed
    else
      match Last(s).reply.value
      case Resolved(delivered) => if !m.stored then Failed else if delivered then Delivered else Unknown
      case Rejected(uncertain) => if uncertain then Unknown else Failed
      case Thrown => Failed
  }

  // Only a failure of a print that was started, with attempts left, is due again.
  function DueGiven(o: Options, s: Shop, m: Move, id: string): Option<int>
    requires Touches(s, m, id) && Legal(s, m) && !m.Enqueue?
  {
    if m.Resume? && StatusGiven(s, m, id).Failed? && s.worker.flight.value.attempts < o.maxAttempts
    then Some(s.worker.flight.value.at + o.retryDelay * s.worker.flight.value.attempts)
    else None
  }

  // What does not depend on how deliveries are filed.
  ghost predicate LooseInv(s: Shop) {
    DistinctKeys(s.worker.rows) && FlightInv(s) && CallsHeard(s.calls)
  }

  lemma {:induction false} RowStep(o: Options, s: Shop, m: Move, id: string)
    requires LooseInv(s) && Legal(s, m) && id in Step(o, s, m).worker.rows && !m.Enqueue?
    ensures id in s.worker.rows
    ensures var before, after := s.worker.rows[id], Step(o, s, m).worker.rows[id];
            if Touches(s, m, id)
            then after == before.(status := StatusGiven(s, m, id), next := DueGiven(o, s, m, id),
                                  attempts := before.attempts + if m.Tick? then 1 else 0)
            else after == before
  {
    if m.Resume? { ResumedRow(o, s, m, id); }
  }

  lemma {:induction false} ResumedRow(o: Options, s: Shop, m: Move, id: string)
    requires FlightInv(s) && Legal(s, m) && id in s.worker.rows && m.Resume?
    ensures var before, after := s.worker.rows[id], Step(o, s, m).worker.rows[id];
            if FilesNow(s, m, id)
            then after == before.(status := StatusGiven(s, m, id), next := DueGiven(o, s, m, id))
            else after == before
  {}

  // A job that is not there yet is stored as the command gives it.
  predicate IsStoredFor(row: Row, job: NewJob) {
    row == Row(job.created, job.dedupe, job.target, Pending, 0, Some(job.created))
  }

  lemma {:induction false} InsertedIsItsJob(rows: Rows, jobs: seq<NewJob>, targets: set<string>, id: string)
    requires id !in rows && InsertAll(rows, jobs, targets).Some? && id in InsertAll(rows, jobs, targets).value
    ensures var row := InsertAll(rows, jobs, targets).value[id];
            exists j :: 0 <= j < |jobs| && jobs[j].id == id && IsStoredFor(row, jobs[j])
    decreases |jobs|
  {
    if jobs != [] {
      var r := InsertOne(rows, jobs[0], targets).value;
      if id in r {
        InsertKeepsRow(r, jobs[1..], targets, id);
        assert IsStoredFor(InsertAll(rows, jobs, targets).value[id], jobs[0]);
      } else {
        InsertedIsItsJob(r, jobs[1..], targets, id);
        var j :| 0 <= j < |jobs[1..]| && jobs[1..][j].id == id
                 && IsStoredFor(InsertAll(r, jobs[1..], targets).value[id], jobs[1..][j]);
        assert jobs[j + 1] == jobs[1..][j];
      }
    }
  }

  lemma {:induction false} InsertKeepsRow(rows: Rows, jobs: seq<NewJob>, targets: set<string>, id: string)
    requires id in rows && InsertAll(rows, jobs, targets).Some?
    ensures id in InsertAll(rows, jobs, targets).value && InsertAll(rows, jobs, targets).value[id] == rows[id]
    decreases |jobs|
  {
    if jobs != [] { InsertKeepsRow(InsertOne(rows, jobs[0], targets).value, jobs[1..], targets, id); }
  }

  // A command leaves the jobs it finds as they are.
  lemma {:induction false} EnqueueStep(o: Options, s: Shop, jobs: seq<NewJob>, id: string)
    requires id in Step(o, s, Enqueue(jobs)).worker.rows
    ensures
      var after := Step(o, s, Enqueue(jobs)).worker.rows[id];
      if id in s.worker.rows then after == s.worker.rows[id]
      else exists j :: 0 <= j < |jobs| && jobs[j].id == id && IsStoredFor(after, jobs[j])
  {
    var rows, targets := s.worker.rows, s.targets.Keys;
    if InsertAll(rows, jobs, targets).Some? {
      if id in rows { InsertKeepsRow(rows, jobs, targets, id); } else { InsertedIsItsJob(rows, jobs, targets, id); }
    }
  }

  /* ---- What a call heard ---- */

  // A call with a socket is in the state its events lead to; one without was
  // refused before anything was sent.
  predicate CallHeard(c: Attempt) {
    || c.session == ReactAll(OPENED, c.heard)
    || (c.session.reply.Some? && SaysNothingSent(c.session.reply.value))
  }

  ghost predicate CallsHeard(calls: seq<Attempt>) {
    forall k | 0 <= k < |calls| :: CallHeard(calls[k])
  }

  lemma {:induction false} HearingOn(c: Attempt, e: Event)
    requires CallHeard(c)
    ensures CallHeard(Heard(c, e))
  {
    ReactAllLast(OPENED, c.heard, e);
  }

  // A socket was opened, and an end callback is the event that decided the call.
  ghost predicate EndedByCallback(c: Attempt) {
    c.session == ReactAll(OPENED, c.heard) && exists i: nat :: Decides(c.heard, i) && c.heard[i].Ended?
  }

  lemma {:induction false} DeliveredByItsEnd(c: Attempt)
    requires CallHeard(c)
    ensures c.session.reply == Some(Resolved(true)) <==> EndedByCallback(c)
  {
    DeliveredExactly(c.heard);
  }

  /* ---- Every move keeps it ---- */

  lemma {:induction false} StepKeepsHeard(o: Options, s: Shop, m: Move)
    requires Legal(s, m) && CallsHeard(s.calls)
    ensures CallsHeard(Step(o, s, m).calls)
  {
    if m.Wire? { HearingOn(s.calls[m.call], m.event); }
  }

  lemma {:induction false} StepKeepsFlight(o: Options, s: Shop, m: Move)
    requires Legal(s, m) && FlightInv(s) && s.dead <= |s.calls| && DistinctKeys(s.worker.rows)
    ensures FlightInv(Step(o, s, m)) && Step(o, s, m).dead <= |Step(o, s, m).calls|
  {
    if m.Enqueue? { InsertKeepsKeys(s.worker.rows, m.jobs, s.targets.Keys); }
  }

  ghost predicate HistoryInv(s: Shop) { LooseInv(s) && s.dead <= |s.calls| }

  lemma {:induction false} StepKeepsHistory(o: Options, s: Shop, m: Move)
    requires Legal(s, m) && HistoryInv(s)
    ensures HistoryInv(Step(o, s, m))
  {
    StepKeepsKeys(o, s, m);
    StepKeepsFlight(o, s, m);
    StepKeepsHeard(o, s, m);
  }

  /* ---- Whole runs ---- */

  lemma {:induction false} RunLast(o: Options, s: Shop, ms: seq<Move>)
    requires LegalRun(o, s, ms) && ms != []
    ensures var front, m := ms[..|ms| - 1], ms[|ms| - 1];
            && LegalRun(o, s, front) && Legal(Run(o, s, front), m)
            && Run(o, s, ms) == Step(o, Run(o, s, front), m)
    decreases |ms|
  {
    var front := ms[..|ms| - 1];
    if |ms| > 1 {
      RunLast(o, Step(o, s, ms[0]), ms[1..]);
      assert front[1..] == ms[1..][..|ms| - 2];
    }
  }

  lemma {:induction false} RunKeepsHistory(o: Options, ms: seq<Move>)
    requires LegalRun(o, EMPTY, ms)
    ensures HistoryInv(Run(o, EMPTY, ms))
  {
    if ms != [] {
      RunLast(o, EMPTY, ms);
      RunKeepsHistory(o, ms[..|ms| - 1]);
      StepKeepsHistory(o, Run(o, EMPTY, ms[..|ms| - 1]), ms[|ms| - 1]);
    }
  }

  // Move i of a legal run touches the job, and no later one does.
  ghost predicate TouchedLast(o: Options, ms: seq<Move>, i: nat, id: string) {
    && i < |ms| && LegalRun(o, EMPTY, ms[..i]) && Legal(Run(o, EMPTY, ms[..i]), ms[i])
    && Touches(Run(o, EMPTY, ms[..i]), ms[i], id)
    && forall j: nat | i < j < |ms| :: TouchesNot(o, ms, j, id)
  }

  ghost predicate TouchesNot(o: Options, ms: seq<Move>, j: nat, id: string)
    requires j < |ms|
  {
    LegalRun(o, EMPTY, ms[..j]) && !Touches(Run(o, EMPTY, ms[..j]), ms[j], id)
  }

  // The status and the due time are those the move gives.
  ghost predicate IsGiven(o: Options, row: Row, s: Shop, m: Move, id: string)
    requires Touches(s, m, id) && Legal(s, m)
  {
    && row.status == StatusGiven(s, m, id)
    && (if m.Enqueue? then exists j :: 0 <= j < |m.jobs| && m.jobs[j].id == id && IsStoredFor(row, m.jobs[j])
        else row.next == DueGiven(o, s, m, id))
  }

  // Over every run: a job has the status and the due time that the last move
  // that touched it gave, and there is such a move.
  lemma {:induction false} StatusComesFrom(o: Options, ms: seq<Move>, id: string) returns (i: nat)
    requires LegalRun(o, EMPTY, ms) && id in Run(o, EMPTY, ms).worker.rows
    ensures TouchedLast(o, ms, i, id)
    ensures IsGiven(o, Run(o, EMPTY, ms).worker.rows[id], Run(o, EMPTY, ms[..i]), ms[i], id)
  {
    if ms == [] {
      assert false;
    } else {
      var n := |ms| - 1;
      var front, m := ms[..n], ms[n];
      RunLast(o, EMPTY, ms);
      RunKeepsHistory(o, front);
      var s := Run(o, EMPTY, front);
      if m.Enqueue? { EnqueueStep(o, s, m.jobs, id); } else { RowStep(o, s, m, id); }
      if Touches(s, m, id) {
        i := n;
      } else {
        i := StatusComesFrom(o, front, id);
        assert forall j: nat | j <= n :: front[..j] == ms[..j];
        assert front[..n] == front;
        forall j: nat | i < j < |ms|
          ensures TouchesNot(o, ms, j, id)
        {
          if j < n { assert TouchesNot(o, front, j, id); }
        }
      }
    }
  }

  /* ---- What is filed as delivered ---- */

  // Move i files the job's call, which an end callback decided, and the mark of
  // the delivery goes through.
  ghost predicate FiledAsDelivered(o: Options, ms: seq<Move>, i: nat, id: string) {
    && i < |ms| && LegalRun(o, EMPTY, ms[..i]) && Legal(Run(o, EMPTY, ms[..i]), ms[i])
    && FilesDelivery(Run(o, EMPTY, ms[..i]), ms[i], id)
  }

  ghost predicate FilesDelivery(s: Shop, m: Move, id: string) {
    && m.Resume? && m.stored && s.worker.flight.Some? && s.worker.flight.value.job == id
    && s.calls != [] && EndedByCallback(s.calls[|s.calls| - 1])
  }

  lemma {:induction false} FilingDelivers(o: Options, s: Shop, m: Move, id: string)
    requires HistoryInv(s) && Legal(s, m) && FilesDelivery(s, m, id)
    ensures Settled(Step(o, s, m), id) && Step(o, s, m).worker.rows[id].status.Delivered?
  {
    DeliveredByItsEnd(s.calls[|s.calls| - 1]);
  }

  lemma {:induction false} FiledStays(o: Options, ms: seq<Move>, i: nat, id: string)
    requires LegalRun(o, EMPTY, ms) && FiledAsDelivered(o, ms, i, id)
    ensures Settled(Run(o, EMPTY, ms), id) && Run(o, EMPTY, ms).worker.rows[id].status.Delivered?
  {
    var n := |ms| - 1;
    var front, m := ms[..n], ms[n];
    RunLast(o, EMPTY, ms);
    RunKeepsHistory(o, front);
    if i == n {
      FilingDelivers(o, Run(o, EMPTY, front), m, id);
    } else {
      assert front[..i] == ms[..i] && front[i] == ms[i];
      FiledStays(o, front, i, id);
      StepLeavesSettled(o, Run(o, EMPTY, front), m, id);
    }
  }

  // Over every run, marks that throw included: a job is delivered if and only if
  // some mark that went through followed a call that an end callback decided.
  lemma {:induction false} DeliveredExactlyWhenFiled(o: Options, ms: seq<Move>, id: string)
    requires LegalRun(o, EMPTY, ms) && id in Run(o, EMPTY, ms).worker.rows
    ensures Run(o, EMPTY, ms).worker.rows[id].status.Delivered? <==> exists i: nat :: FiledAsDelivered(o, ms, i, id)
  {
    if Run(o, EMPTY, ms).worker.rows[id].status.Delivered? {
      var i := StatusComesFrom(o, ms, id);
      RunKeepsHistory(o, ms[..i]);
      var s := Run(o, EMPTY, ms[..i]);
      DeliveredByItsEnd(s.calls[|s.calls| - 1]);
      assert FiledAsDelivered(o, ms, i, id);
    }
    if i: nat :| FiledAsDelivered(o, ms, i, id) { FiledStays(o, ms, i, id); }
  }

  /* ---- Where calls come from ---- */

  // A host and a TCP port.
  predicate HasAddress(t: Target) {
    t.host.Some? && |t.host.value| > 0 && t.port.Some? && 0 < t.port.value < 0x1_0000
  }

  // The call a tick starts: with a socket exactly for an address and a ticket
  // that renders, and refused with nothing sent otherwise.
  predicate IsStarted(s: Shop, m: Move, id: string, c: Attempt)
    requires ClaimsNow(s, m, id) && id in s.worker.rows && HasActiveTarget(s, id)
  {
    var addressed := HasAddress(s.targets[s.worker.rows[id].target.value]);
    && c.job == id && c.heard == []
    && (addressed && m.renders ==> c.session == OPENED)
    && (!addressed ==> c.session.reply == Some(Rejected(false)))
    && (addressed && !m.renders ==> c.session.reply == Some(Thrown))
    && (c.session.reply.Some? ==> c.session.destroyed && c.session.handed == 0)
  }

  // Only a tick starts a call, one, and only for a job it claims whose target is
  // there and active; no move forgets a call or gives it to another job.
  lemma {:induction false} CallsComeFromTicks(o: Options, s: Shop, m: Move)
    requires Legal(s, m)
    ensures
      var t := Step(o, s, m);
      if m.Tick? && m.claimed.Some? && ClaimsNow(s, m, m.claimed.value) && HasActiveTarget(s, m.claimed.value)
      then |t.calls| == |s.calls| + 1 && t.calls[..|s.calls|] == s.calls
           && IsStarted(s, m, m.claimed.value, t.calls[|s.calls|])
      else |t.calls| == |s.calls| &&
           forall k | 0 <= k < |s.calls| :: t.calls[k].job == s.calls[k].job && s.calls[k].heard <= t.calls[k].heard
  {}

  // A tick of a free worker takes the oldest job that is pending or due, and
  // takes none exactly when there is none.
  lemma {:induction false} TickTakesTheOldest(s: Shop, m: Move, id: string)
    requires Legal(s, m) && m.Tick? && s.worker.flight.None? && id in s.worker.rows
    requires
      var row := s.worker.rows[id];
      row.status == Pending || (row.status == Failed && row.next.Some? && row.next.value <= m.now)
    ensures m.claimed.Some? && m.claimed.value in s.worker.rows
    ensures
      var row := s.worker.rows[m.claimed.value];
      && row.created <= s.worker.rows[id].created
      && (row.status == Pending || (row.status == Failed && row.next.Some? && row.next.value <= m.now))
  {}

  /* ---- The print in flight, and polling ---- */

  // A tick that starts a call, and the print it leaves in flight.
  predicate TakesOff(s: Shop, m: Move) {
    m.Tick? && m.claimed.Some? && m.claimed.value in s.worker.rows && ClaimsNow(s, m, m.claimed.value)
    && HasActiveTarget(s, m.claimed.value)
  }

  lemma {:induction false} FlightStep(o: Options, s: Shop, m: Move)
    requires Legal(s, m)
    ensures Step(o, s, m).worker.flight ==
              if TakesOff(s, m) then
                Some(Flight(m.claimed.value, s.worker.rows[m.claimed.value].attempts + 1, m.now))
              else if m.Resume? || m.Crash? then None
              else s.worker.flight
  {}

  ghost predicate TookOffLast(o: Options, ms: seq<Move>, i: nat) {
    && i < |ms| && LegalRun(o, EMPTY, ms[..i]) && TakesOff(Run(o, EMPTY, ms[..i]), ms[i])
    && forall j: nat | i < j < |ms| :: !ms[j].Resume? && !ms[j].Crash?
  }

  // Over every run: the print in flight is the one the last such tick started, at
  // the moment and with the attempt it counted.
  lemma {:induction false} FlightComesFrom(o: Options, ms: seq<Move>) returns (i: nat)
    requires LegalRun(o, EMPTY, ms) && Run(o, EMPTY, ms).worker.flight.Some?
    ensures TookOffLast(o, ms, i)
    ensures var id := ms[i].claimed.value;
            Run(o, EMPTY, ms).worker.flight ==
              Some(Flight(id, Run(o, EMPTY, ms[..i]).worker.rows[id].attempts + 1, ms[i].now))
  {
    if ms == [] {
      assert false;
    } else {
      var n := |ms| - 1;
      var front, m := ms[..n], ms[n];
      RunLast(o, EMPTY, ms);
      FlightStep(o, Run(o, EMPTY, front), m);
      if TakesOff(Run(o, EMPTY, front), m) {
        i := n;
      } else {
        i := FlightComesFrom(o, front);
        assert front[..i] == ms[..i];
      }
    }
  }

  ghost predicate StartedLast(ms: seq<Move>, i: nat) {
    i < |ms| && ms[i].StartPolling? && forall j: nat | i < j < |ms| :: !ms[j].StopPolling? && !ms[j].Crash?
  }

  // Over every run: the worker polls exactly when it was started and neither
  // stopped nor gone since.
  lemma {:induction false} PollsExactly(o: Options, ms: seq<Move>)
    requires LegalRun(o, EMPTY, ms)
    ensures Run(o, EMPTY, ms).worker.polling <==> exists i: nat :: StartedLast(ms, i)
  {
    if ms != [] {
      var n := |ms| - 1;
      var front, m := ms[..n], ms[n];
      RunLast(o, EMPTY, ms);
      PollsExactly(o, front);
      PollingStep(o, Run(o, EMPTY, front), m);
      assert StartedLast(ms, n) <==> m.StartPolling?;
      forall i: nat | i < n
        ensures StartedLast(ms, i) <==> StartedLast(front, i) && !m.StopPolling? && !m.Crash?
      {
        assert forall j: nat | j < n :: ms[j] == front[j];
      }
      assert forall i: nat | StartedLast(ms, i) && i != n :: StartedLast(front, i);
      if i: nat :| StartedLast(front, i) {
        assert StartedLast(ms, i) <==> !m.StopPolling? && !m.Crash?;
      }
    }
  }

  lemma {:induction false} PollingStep(o: Options, s: Shop, m: Move)
    requires Legal(s, m)
    ensures Step(o, s, m).worker.polling <==>
              m.StartPolling? || (s.worker.polling && !m.StopPolling? && !m.Crash?)
  {}
}
