/**
 What calls and failures leave behind over whole runs: when a microtask is
 waiting, that every failure is reported, and that stop is final.
 */
module CatalogCalls {
  import opened CatalogController
  import opened CatalogRuns

  lemma {:induction false} RunLast(t: Trace, events: seq<Event>)
    requires Legal(t, events) && events != []
    ensures var front, e := events[..|events| - 1], events[|events| - 1];
            && Legal(t, front) && Enabled(Run(t, front).ctl, e)
            && Run(t, events) == Advance(Run(t, front), e)
    decreases |events|
  {
    var front := events[..|events| - 1];
    if |events| > 1 {
      RunLast(Advance(t, events[0]), events[1..]);
      assert front[1..] == events[1..][..|events| - 2];
    }
  }

  /* ---- When a microtask is waiting ---- */

  // An invalidation that is not ignored, at a controller that is doing nothing
  // and has nothing waiting.
  predicate Queues(c: Controller, e: Event) {
    && e.Invalidate? && !c.stopped && !c.running && !c.scheduled
    && (e.target.Some? && c.current.Some? ==> Older(c.current.value, e.target.value))
  }

  // Queued by event i, and not run since.
  ghost predicate QueuedAt(events: seq<Event>, i: nat) {
    && i < |events| && Legal(Begin(), events[..i]) && Queues(Run(Begin(), events[..i]).ctl, events[i])
    && forall j | i < j < |events| :: !events[j].Microtask?
  }

  lemma QueueStep(c: Controller, e: Event)
    requires Enabled(c, e)
    ensures Next(c, e).scheduled <==> Queues(c, e) || (c.scheduled && !e.Microtask?)
  {}

  lemma {:induction false} QueuedBefore(front: seq<Event>, e: Event, i: nat)
    requires i < |front|
    ensures QueuedAt(front + [e], i) <==> QueuedAt(front, i) && !e.Microtask?
  {
    var events := front + [e];
    assert events[..i] == front[..i] && events[|front|] == e;
    assert forall j | 0 <= j < |front| :: events[j] == front[j];
  }

  // Over every run: a microtask is waiting if and only if some accepted
  // invalidation found the controller neither running nor waiting, and no
  // microtask has run since.
  lemma {:induction false} MicrotaskWaitsExactly(events: seq<Event>)
    requires Legal(Begin(), events)
    ensures Run(Begin(), events).ctl.scheduled <==> exists i: nat :: QueuedAt(events, i)
  {
    if events != [] {
      var n := |events| - 1;
      var front, e := events[..n], events[n];
      assert events == front + [e];
      RunLast(Begin(), events);
      MicrotaskWaitsExactly(front);
      QueueStep(Run(Begin(), front).ctl, e);
      forall i: nat | i < n
        ensures QueuedAt(events, i) <==> QueuedAt(front, i) && !e.Microtask?
      {
        QueuedBefore(front, e, i);
      }
      assert QueuedAt(events, n) <==> Queues(Run(Begin(), front).ctl, e);
      assert forall i: nat | QueuedAt(events, i) && i != n :: QueuedAt(front, i);
      if i: nat :| QueuedAt(front, i) { assert QueuedAt(events, i) <==> !e.Microtask?; }
    }
  }

  /* ---- Failures are reported ---- */

  predicate Fails(e: Event) { e.ReadFails? || e.ApplyThrows? }

  function CountFailures(events: seq<Event>): nat {
    if events == [] then 0
    else CountFailures(events[..|events| - 1]) + if Fails(events[|events| - 1]) then 1 else 0
  }

  function CountCatches(events: seq<Event>): nat {
    if events == [] then 0
    else CountCatches(events[..|events| - 1]) + if events[|events| - 1].Catch? then 1 else 0
  }

  lemma {:induction false} FailuresWait(events: seq<Event>)
    requires Legal(Begin(), events)
    ensures CountFailures(events) == CountCatches(events) + if Run(Begin(), events).ctl.frame.Rejected? then 1 else 0
  {
    if events != [] {
      var front := events[..|events| - 1];
      RunLast(Begin(), events);
      FailuresWait(front);
      RunKeepsInv(Begin(), front);
      FrameAfter(Run(Begin(), front).ctl, events[|events| - 1]);
    }
  }

  // Over every run: every read that failed and every apply that threw has had
  // the catch handler, but for one whose handler is the next thing to run; so
  // once the controller is idle each failure has been handled.
  lemma {:induction false} EveryFailureIsCaught(events: seq<Event>)
    requires Legal(Begin(), events)
    ensures var c := Run(Begin(), events).ctl;
            && CountFailures(events) == CountCatches(events) + (if c.frame.Rejected? then 1 else 0)
            && (!c.running ==> CountFailures(events) == CountCatches(events))
  {
    FailuresWait(events);
    RunKeepsInv(Begin(), events);
  }

  lemma FrameAfter(c: Controller, e: Event)
    requires ControllerInv(c) && Enabled(c, e)
    ensures Next(c, e).frame.Rejected? <==> Fails(e) || (c.frame.Rejected? && !e.Catch?)
    ensures e.Catch? ==> c.frame.Rejected? && Next(c, e).dirty
    ensures Fails(e) ==> !c.frame.Rejected?
  {}

  /* ---- Stop is final ---- */

  // From a stopped controller on, nothing is published, no stamp moves and no
  // attempt begins; and once it is idle only a microtask that was waiting can
  // still come and go.
  lemma {:induction false} StoppedForGood(t: Trace, events: seq<Event>)
    requires t.ctl.stopped && ControllerInv(t.ctl) && Legal(t, events)
    ensures var c := Run(t, events).ctl;
            && c.stopped && c.current == t.ctl.current && c.target == t.ctl.target && c.snapshot == t.ctl.snapshot
            && (c.frame.AwaitingState? ==> c.frame == t.ctl.frame)
            && (!t.ctl.running ==> c == t.ctl.(scheduled := c.scheduled) && (c.scheduled ==> t.ctl.scheduled))
    decreases |events|
  {
    if events != [] {
      StoppedStep(t.ctl, events[0]);
      StoppedForGood(Advance(t, events[0]), events[1..]);
    }
  }

  // A refresh that learns of the stop at its second stamp ends there and then.
  lemma StoppedRecheckEnds(c: Controller, s: Stamp)
    requires c.stopped && c.frame.AwaitingRecheck?
    ensures Next(c, StateReply(s)) == c.(frame := Settled)
  {}

  lemma StoppedStep(c: Controller, e: Event)
    requires c.stopped && ControllerInv(c) && Enabled(c, e)
    ensures var d := Next(c, e);
            && d.stopped && ControllerInv(d)
            && d.current == c.current && d.target == c.target && d.snapshot == c.snapshot
            && (d.frame.AwaitingState? ==> d.frame == c.frame)
            && (!c.running ==> d == c.(scheduled := d.scheduled) && (d.scheduled ==> c.scheduled))
  {
    if e.Invalidate? || e.Check? || e.Stop? || e.Microtask? { CallKeepsInv(c, e); } else { ResumptionKeepsInv(c, e); }
  }
}
