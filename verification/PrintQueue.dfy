/**
 The persistent print queue: rows change only through inserts, claims, marks and
 the recovery of interrupted jobs.
 */
module PrintQueue {
  import opened Wrappers

  datatype Status = Pending | Sending | Delivered | Failed | Unknown

  datatype Row = Row(
    created: int,
    dedupe: string,
    target: Option<string>,
    status: Status,
    attempts: nat,
    next: Option<int>)

  type Rows = map<string, Row>

  datatype NewJob = NewJob(id: string, created: int, dedupe: string, target: Option<string>)

  /* ---- Inserts ---- */

  predicate KeyTaken(rows: Rows, dedupe: string) {
    exists id | id in rows :: rows[id].dedupe == dedupe
  }

  // The columns an insert checks, once its key is not taken.
  predicate Storable(rows: Rows, job: NewJob, targets: set<string>) {
    job.id !in rows && (job.target.Some? ==> job.target.value in targets)
  }

  function NewRow(job: NewJob): Row {
    Row(job.created, job.dedupe, job.target, Pending, 0, Some(job.created))
  }

  // None when a constraint fails: the whole transaction is then rolled back.
  function InsertOne(rows: Rows, job: NewJob, targets: set<string>): Option<Rows> {
    if KeyTaken(rows, job.dedupe) then Some(rows)
    else if Storable(rows, job, targets) then Some(rows[job.id := NewRow(job)])
    else None
  }

  function InsertAll(rows: Rows, jobs: seq<NewJob>, targets: set<string>): Option<Rows>
    decreases |jobs|
  {
    if jobs == [] then Some(rows)
    else match InsertOne(rows, jobs[0], targets)
      case None => None
      case Some(r) => InsertAll(r, jobs[1..], targets)
  }

  function Inserted(rows: Rows, jobs: seq<NewJob>, targets: set<string>): Rows {
    match InsertAll(rows, jobs, targets) case Some(r) => r case None => rows
  }

  /* ---- Claims ---- */

  predicate Claimable(row: Row, now: int) {
    row.status.Pending? || (row.status.Failed? && row.next.Some? && row.next.value <= now)
  }

  // The oldest claimable job.
  predicate IsNext(rows: Rows, now: int, id: string) {
    && id in rows && Claimable(rows[id], now)
    && forall other | other in rows && Claimable(rows[other], now) :: rows[id].created <= rows[other].created
  }

  predicate NothingToClaim(rows: Rows, now: int) {
    forall id | id in rows :: !Claimable(rows[id], now)
  }

  function Claim(row: Row): Row { row.(status := Sending, attempts := row.attempts + 1, next := None) }

  lemma {:induction false} OldestExists(rows: Rows, ids: set<string>) returns (oldest: string)
    requires ids != {} && forall id | id in ids :: id in rows
    ensures oldest in ids && forall id | id in ids :: rows[oldest].created <= rows[id].created
    decreases |ids|
  {
    oldest :| oldest in ids;
    var rest := ids - {oldest};
    if rest != {} {
      var other := OldestExists(rows, rest);
      if rows[other].created < rows[oldest].created { oldest := other; }
    }
  }

  // A claim finds a job exactly when one is claimable.
  lemma NextExists(rows: Rows, now: int)
    ensures (exists id | id in rows :: IsNext(rows, now, id)) <==> !NothingToClaim(rows, now)
  {
    var ids := set id | id in rows && Claimable(rows[id], now);
    if ids != {} {
      var oldest := OldestExists(rows, ids);
      assert IsNext(rows, now, oldest);
    } else {
      forall id | id in rows
        ensures !Claimable(rows[id], now)
      {
        assert id !in ids;
      }
    }
  }

  /* ---- Marks ---- */

  function Mark(rows: Rows, id: string, status: Status, next: Option<int>): Rows {
    if id in rows then rows[id := rows[id].(status := status, next := next)] else rows
  }

  function Recover(rows: Rows): Rows {
    map id | id in rows :: if rows[id].status.Sending? then rows[id].(status := Unknown, next := None) else rows[id]
  }

  class PrintJobRepository {
    var rows: Rows

    constructor ()
      ensures rows == map[]
    {
      rows := map[];
    }

    // A command's jobs, all or none.
    method Enqueue(jobs: seq<NewJob>, targets: set<string>) returns (stored: bool)
      modifies this
      ensures rows == Inserted(old(rows), jobs, targets)
      ensures stored <==> InsertAll(old(rows), jobs, targets).Some?
    {
      var saved := rows;
      var i := 0;
      while i < |jobs|
        invariant 0 <= i <= |jobs|
        invariant InsertAll(saved, jobs, targets) == InsertAll(rows, jobs[i..], targets)
      {
        var job := jobs[i];
        assert jobs[i..][1..] == jobs[i + 1..];
        if !KeyTaken(rows, job.dedupe) {
          if !Storable(rows, job, targets) {
            rows := saved;
            return false;
          }
          rows := rows[job.id := NewRow(job)];
        }
        i := i + 1;
      }
      stored := true;
    }

    method RecoverInterruptedJobs()
      modifies this
      ensures rows == Recover(old(rows))
    {
      rows := map id | id in rows ::
        if rows[id].status.Sending? then rows[id].(status := Unknown, next := None) else rows[id];
    }

    method ClaimNext(now: int) returns (claimed: Option<string>)
      modifies this
      ensures claimed.None? ==> rows == old(rows) && NothingToClaim(old(rows), now)
      ensures claimed.Some? ==>
                && IsNext(old(rows), now, claimed.value)
                && rows == old(rows)[claimed.value := Claim(old(rows)[claimed.value])]
    {
      if forall id | id in rows :: !Claimable(rows[id], now) { return None; }
      NextExists(rows, now);
      var id :| id in rows && IsNext(rows, now, id);
      rows := rows[id := rows[id].(status := Sending, attempts := rows[id].attempts + 1, next := None)];
      claimed := Some(id);
    }

    method MarkDelivered(id: string)
      modifies this
      ensures rows == Mark(old(rows), id, Delivered, None)
    {
      if id in rows { rows := rows[id := rows[id].(status := Delivered, next := None)]; }
    }

    method MarkFailed(id: string, next: Option<int>)
      modifies this
      ensures rows == Mark(old(rows), id, Failed, next)
    {
      if id in rows { rows := rows[id := rows[id].(status := Failed, next := next)]; }
    }

    method MarkUnknown(id: string)
      modifies this
      ensures rows == Mark(old(rows), id, Unknown, None)
    {
      if id in rows { rows := rows[id := rows[id].(status := Unknown, next := None)]; }
    }
  }

  /* ---- One job for each key ---- */

  predicate DistinctKeys(rows: Rows) {
    forall a, b | a in rows && b in rows :: rows[a].dedupe == rows[b].dedupe ==> a == b
  }

  // Old rows stay as they are, new ones wait for their first attempt.
  predicate Extends(before: Rows, after: Rows) {
    && (forall id | id in before :: id in after && after[id] == before[id])
    && (forall id | id in after && id !in before :: after[id].status.Pending? && after[id].attempts == 0)
  }

  // Inserting keeps one job for each key, adds nothing when a constraint fails,
  // and afterwards every key of the command has its job.
  lemma {:induction false} InsertKeepsKeys(rows: Rows, jobs: seq<NewJob>, targets: set<string>)
    requires DistinctKeys(rows)
    ensures DistinctKeys(Inserted(rows, jobs, targets)) && Extends(rows, Inserted(rows, jobs, targets))
    ensures InsertAll(rows, jobs, targets).None? ==> Inserted(rows, jobs, targets) == rows
    ensures InsertAll(rows, jobs, targets).Some? ==>
              forall i | 0 <= i < |jobs| :: KeyTaken(Inserted(rows, jobs, targets), jobs[i].dedupe)
    decreases |jobs|
  {
    if jobs != [] && InsertOne(rows, jobs[0], targets).Some? {
      var r := InsertOne(rows, jobs[0], targets).value;
      InsertOneKeepsKeys(rows, jobs[0], targets);
      InsertKeepsKeys(r, jobs[1..], targets);
      KeyStays(r, Inserted(r, jobs[1..], targets), jobs[0].dedupe);
    }
  }

  // What refuses a command: a job with a new key whose id is used or whose target
  // is not there, behind jobs that go through.
  predicate Refuses(rows: Rows, job: NewJob, targets: set<string>) {
    && (forall id | id in rows :: rows[id].dedupe != job.dedupe)
    && (job.id in rows || (job.target.Some? && job.target.value !in targets))
  }

  ghost predicate RefusedAt(rows: Rows, jobs: seq<NewJob>, targets: set<string>, i: nat) {
    i < |jobs| &&
      match InsertAll(rows, jobs[..i], targets)
      case Some(r) => Refuses(r, jobs[i], targets)
      case None => false
  }

  lemma {:induction false} RefusedExactly(rows: Rows, jobs: seq<NewJob>, targets: set<string>)
    ensures InsertAll(rows, jobs, targets).None? <==> exists i: nat :: RefusedAt(rows, jobs, targets, i)
    decreases |jobs|
  {
    if jobs != [] {
      var one := InsertOne(rows, jobs[0], targets);
      assert jobs[..0] == [];
      assert RefusedAt(rows, jobs, targets, 0) <==> one.None?;
      if one.Some? {
        RefusedExactly(one.value, jobs[1..], targets);
        forall i: nat
          ensures RefusedAt(rows, jobs, targets, i + 1) <==> RefusedAt(one.value, jobs[1..], targets, i)
        {
          if i + 1 < |jobs| {
            assert jobs[..i + 1][1..] == jobs[1..][..i];
            assert jobs[..i + 1][0] == jobs[0];
          }
        }
        if i: nat :| RefusedAt(one.value, jobs[1..], targets, i) { assert RefusedAt(rows, jobs, targets, i + 1); }
        if i: nat :| RefusedAt(rows, jobs, targets, i) {
          assert i != 0;
          var k: nat := i - 1;
          assert RefusedAt(rows, jobs, targets, k + 1) && RefusedAt(one.value, jobs[1..], targets, k);
        }
      }
    }
  }

  // A command that comes again goes through and changes nothing.
  lemma {:induction false} KnownKeysChangeNothing(rows: Rows, jobs: seq<NewJob>, targets: set<string>)
    requires forall i | 0 <= i < |jobs| :: KeyTaken(rows, jobs[i].dedupe)
    ensures InsertAll(rows, jobs, targets) == Some(rows)
    decreases |jobs|
  {
    if jobs != [] { KnownKeysChangeNothing(rows, jobs[1..], targets); }
  }

  lemma {:induction false} ResubmissionChangesNothing(
    rows: Rows, jobs: seq<NewJob>, targets: set<string>, later: set<string>)
    requires DistinctKeys(rows) && InsertAll(rows, jobs, targets).Some?
    ensures var r := InsertAll(rows, jobs, targets).value; InsertAll(r, jobs, later) == Some(r)
  {
    InsertKeepsKeys(rows, jobs, targets);
    KnownKeysChangeNothing(InsertAll(rows, jobs, targets).value, jobs, later);
  }

  lemma InsertOneKeepsKeys(rows: Rows, job: NewJob, targets: set<string>)
    requires DistinctKeys(rows) && InsertOne(rows, job, targets).Some?
    ensures var r := InsertOne(rows, job, targets).value;
            DistinctKeys(r) && Extends(rows, r) && KeyTaken(r, job.dedupe)
  {
    var r := InsertOne(rows, job, targets).value;
    if !KeyTaken(rows, job.dedupe) { assert r[job.id].dedupe == job.dedupe; }
  }

  lemma KeyStays(before: Rows, after: Rows, dedupe: string)
    requires Extends(before, after) && KeyTaken(before, dedupe)
    ensures KeyTaken(after, dedupe)
  {
    var id :| id in before && before[id].dedupe == dedupe;
    assert after[id].dedupe == dedupe;
  }
}
