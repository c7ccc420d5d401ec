/**
 The print worker: at most one print in flight, a claim before it and a mark
 after it, with a retry only for a failure the adapter calls safe.
 */
module PrintWorker {
  import opened Wrappers
  import opened PrintQueue
  import opened TcpPrinter

  datatype Options = Options(retryDelay: int, maxAttempts: int)

  // The suspended print call: the claimed job and the moment of the claim.
  datatype Flight = Flight(job: string, attempts: nat, at: int)

  datatype Worker = Worker(rows: Rows, polling: bool, flight: Option<Flight>)

  // When to try again: a delay that grows with the attempts, until they run out.
  function Retry(o: Options, f: Flight): Option<int> {
    if f.attempts >= o.maxAttempts then None else Some(f.at + o.retryDelay * f.attempts)
  }

  // A target that is there and active; `targets` is what the table holds now.
  function ActiveTarget(targets: map<string, Target>, id: Option<string>): Option<Target> {
    if id.Some? && id.value in targets && targets[id.value].active then Some(targets[id.value]) else None
  }

  // processNext up to its await, for the job it claims. `stored` says whether a
  // mark goes through; one that throws leaves the row and escapes.
  function Dispatch(w: Worker, now: int, id: string, target: Option<Target>, stored: bool): Worker
    requires id in w.rows
  {
    var rows := w.rows[id := Claim(w.rows[id])];
    if target.Some? then w.(rows := rows, flight := Some(Flight(id, rows[id].attempts, now)))
    else w.(rows := if stored then Mark(rows, id, Failed, None) else rows)
  }

  // The catch clause, reached by a rejection and by a mark that throws.
  function Caught(rows: Rows, o: Options, f: Flight, reply: Reply, stored: bool): Rows {
    if !stored then rows
    else if reply == Rejected(true) then Mark(rows, f.job, Unknown, None)
    else Mark(rows, f.job, Failed, Retry(o, f))
  }

  // processNext after its await. `stored` and `caught` say whether the mark in
  // the try clause and the one in the catch clause go through.
  function Conclude(w: Worker, o: Options, reply: Reply, stored: bool, caught: bool): Worker
    requires w.flight.Some?
  {
    var f := w.flight.value;
    w.(flight := None,
       rows := if reply.Resolved? && stored
               then Mark(w.rows, f.job, if reply.delivered then Delivered else Unknown, None)
               else Caught(w.rows, o, f, if reply.Resolved? then Thrown else reply, caught))
  }

  // start, up to the processNext it ends with.
  function Start(w: Worker): Worker {
    if w.polling then w else w.(rows := Recover(w.rows), polling := true)
  }

  class PrintWorker {
    const queue: PrintJobRepository
    const options: Options
    var polling: bool
    var running: bool
    var current: Flight

    function View(): Worker
      reads this, queue
    {
      Worker(queue.rows, polling, if running then Some(current) else None)
    }

    constructor (queue: PrintJobRepository, options: Options)
      ensures this.queue == queue && this.options == options
      ensures View() == Worker(queue.rows, false, None)
    {
      this.queue := queue;
      this.options := options;
      polling, running, current := false, false, Flight("", 0, 0);
    }

    method StartPolling()
      modifies this, queue
      ensures View() == Start(old(View()))
    {
      if polling { return; }
      queue.RecoverInterruptedJobs();
      polling := true;
    }

    method StopPolling()
      modifies this`polling
      ensures View() == old(View()).(polling := false)
    {
      polling := false;
    }

    // The job claimed, and the session of its print when it has a target.
    method ProcessNext(now: int, targets: map<string, Target>, renders: bool, stored: bool)
      returns (claimed: Option<string>, session: Option<Session>)
      modifies this, queue
      ensures claimed.None? ==>
                && session.None? && View() == old(View())
                && (old(View()).flight.Some? || NothingToClaim(old(View()).rows, now))
      ensures claimed.Some? ==>
                var w, id := old(View()), claimed.value;
                && w.flight.None? && IsNext(w.rows, now, id)
                && var target := ActiveTarget(targets, w.rows[id].target);
                   && View() == Dispatch(w, now, id, target, stored)
                   && session == if target.Some? then Some(Open(target.value, renders)) else None
    {
      if running { return None, None; }
      claimed := queue.ClaimNext(now);
      if claimed.None? { return None, None; }
      var row := queue.rows[claimed.value];
      var target := ActiveTarget(targets, row.target);
      if target.None? {
        if stored { queue.MarkFailed(claimed.value, None); }
        return claimed, None;
      }
      running := true;
      current := Flight(claimed.value, row.attempts, now);
      session := Some(Open(target.value, renders));
    }

    method Resume(reply: Reply, stored: bool, caught: bool)
      requires running
      modifies this, queue
      ensures View() == Conclude(old(View()), options, reply, stored, caught)
    {
      if reply.Resolved? && stored {
        if reply.delivered { queue.MarkDelivered(current.job); } else { queue.MarkUnknown(current.job); }
      } else if caught {
        if reply == Rejected(true) {
          queue.MarkUnknown(current.job);
        } else {
          var next := if current.attempts >= options.maxAttempts then None
                      else Some(current.at + options.retryDelay * current.attempts);
          queue.MarkFailed(current.job, next);
        }
      }
      running := false;
    }
  }
}
