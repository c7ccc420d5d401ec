/**
 Whole runs of the catalog controller against a source that may answer
 anything, in any order, and fail at any time.
 */
module CatalogRuns {
  import opened Wrappers
  import opened CatalogController

  // What a run did that matters: targets accepted, snapshots applied, forced checks, stop.
  datatype Entry = Delivered(target: Stamp) | Applied(snapshot: Snapshot) | Forced | Halted

  datatype Trace = Trace(ctl: Controller, log: seq<Entry>)

  function Begin(): Trace { Trace(Initial(), []) }

  function Entries(c: Controller, e: Event): seq<Entry> {
    match e
    case Invalidate(Some(t)) => if c.stopped then [] else [Delivered(t)]
    case Check(true) => if c.stopped then [] else [Forced]
    case Stop => [Halted]
    case StateReply(s) =>
      if Publishes(c, s) then [Applied(Snapshot(s, c.frame.categoryRows, c.frame.productRows))] else []
    case _ => []
  }

  function Advance(t: Trace, e: Event): Trace
    requires Enabled(t.ctl, e)
  {
    Trace(Next(t.ctl, e), t.log + Entries(t.ctl, e))
  }

  predicate Legal(t: Trace, events: seq<Event>)
    decreases |events|
  {
    events == [] || (Enabled(t.ctl, events[0]) && Legal(Advance(t, events[0]), events[1..]))
  }

  function Run(t: Trace, events: seq<Event>): Trace
    requires Legal(t, events)
    decreases |events|
  {
    if events == [] then t else Run(Advance(t, events[0]), events[1..])
  }

  /* ---- What every event keeps ---- */

  // What `current` stands for.
  predicate Linked(c: Controller) {
    c.current.Some? ==>
      && c.snapshot.Some? && c.snapshot.value.state == c.current.value
      && c.target.Some? && !Older(c.target.value, c.current.value)
  }

  // The controller knows it is behind, or it is not behind.
  predicate Aware(c: Controller) {
    c.stopped || c.dirty || c.current == c.target
  }

  predicate ControllerInv(c: Controller) {
    && Linked(c)
    && (c.running <==> !c.frame.NotRunning?)
    && match c.frame
       case NotRunning | Settled => Aware(c)
       case AwaitingState(attempt) => attempt < MAX_ATTEMPTS
       case AwaitingRows(attempt, before, categories, products) =>
         attempt < MAX_ATTEMPTS && c.current != Some(before) && (categories.None? || products.None?)
       case AwaitingRecheck(attempt, before, _, _) => attempt < MAX_ATTEMPTS && c.current != Some(before)
       case Applying(attempt) => attempt < MAX_ATTEMPTS && Aware(c)
       case Rejected => true
  }

  lemma CallKeepsInv(c: Controller, e: Event)
    requires ControllerInv(c) && Enabled(c, e)
    requires e.Invalidate? || e.Check? || e.Stop? || e.Microtask?
    ensures ControllerInv(Next(c, e))
  {
    match e
    case Invalidate(t) =>
      var d := AfterInvalidate(c, t);
      assert d.target == c.target || d.dirty;
    case _ =>
  }

  lemma ResumptionKeepsInv(c: Controller, e: Event)
    requires ControllerInv(c) && Enabled(c, e)
    requires !e.Invalidate? && !e.Check? && !e.Stop? && !e.Microtask?
    ensures ControllerInv(Next(c, e))
  {
    if e.StateReply? { StateReplyKeepsInv(c, e.stamp); }
  }

  lemma StateReplyKeepsInv(c: Controller, s: Stamp)
    requires ControllerInv(c) && Enabled(c, StateReply(s))
    ensures ControllerInv(Next(c, StateReply(s)))
  {
    if c.frame.AwaitingState? && c.current == Some(s) {
      assert !Newer(c.target, s) ==> c.current == c.target;
    }
  }

  predicate Bounds(target: Option<Stamp>, s: Stamp) {
    target.Some? && !Older(target.value, s)
  }

  function StampOf(e: Entry): Option<Stamp> {
    match e
    case Delivered(t) => Some(t)
    case Applied(s) => Some(s.state)
    case _ => None
  }

  // `target` is the lexicographic maximum of everything delivered and applied.
  ghost predicate IsMaximum(target: Option<Stamp>, log: seq<Entry>) {
    && (forall i | 0 <= i < |log| && StampOf(log[i]).Some? :: Bounds(target, StampOf(log[i]).value))
    && (target.Some? ==> exists i :: 0 <= i < |log| && StampOf(log[i]) == target)
  }

  // Nothing applied goes back behind what came before it, or follows a stop.
  ghost predicate Ordered(log: seq<Entry>) {
    forall i, j | 0 <= i < j < |log| && log[j].Applied? ::
      && !log[i].Halted?
      && (StampOf(log[i]).Some? ==> !Older(log[j].snapshot.state, StampOf(log[i]).value))
  }

  ghost predicate ForcedBetween(log: seq<Entry>, i: nat, j: nat) {
    exists k :: i < k < j && k < |log| && log[k].Forced?
  }

  // The same stamp is applied twice only when a forced check came in between.
  ghost predicate NoIdleRepublish(log: seq<Entry>) {
    forall i, j | 0 <= i < j < |log| && log[i].Applied? && log[j].Applied? ::
      log[i].snapshot.state == log[j].snapshot.state ==> ForcedBetween(log, i, j)
  }

  // An applied stamp is still current, was dropped by force, or has been overtaken.
  ghost predicate Accounted(c: Controller, log: seq<Entry>) {
    forall i | 0 <= i < |log| && log[i].Applied? ::
      || c.current == Some(log[i].snapshot.state)
      || ForcedBetween(log, i, |log|)
      || Newer(c.target, log[i].snapshot.state)
  }

  ghost predicate TraceInv(t: Trace) {
    && ControllerInv(t.ctl)
    && IsMaximum(t.ctl.target, t.log)
    && Ordered(t.log)
    && NoIdleRepublish(t.log)
    && Accounted(t.ctl, t.log)
    && (t.ctl.stopped <==> Halted in t.log)
  }

  // How one event moves the stamps, and what it records.
  predicate Moves(c: Controller, d: Controller, added: seq<Entry>) {
    && |added| <= 1
    && (c.target.Some? ==> Bounds(d.target, c.target.value))
    && (d.stopped <==> c.stopped || added == [Halted])
    && (d.current == c.current || added != [])
    && if added == [] then d.target == c.target
       else match added[0]
         case Delivered(t) =>
           Bounds(d.target, t) && d.current == c.current && (d.target == c.target || d.target == Some(t))
         case Applied(s) => !c.stopped && d.target == d.current == Some(s.state) && c.current != d.current
         case Forced => d.target == c.target
         case Halted => d.target == c.target && d.current == c.current
  }

  lemma EventMoves(c: Controller, e: Event)
    requires ControllerInv(c) && Enabled(c, e)
    ensures Moves(c, Next(c, e), Entries(c, e))
  {
    if e.Invalidate? || e.Check? || e.Stop? || e.Microtask? { CallMoves(c, e); }
  }

  lemma CallMoves(c: Controller, e: Event)
    requires Enabled(c, e) && (e.Invalidate? || e.Check? || e.Stop? || e.Microtask?)
    ensures Moves(c, Next(c, e), Entries(c, e))
  {
    assert Next(c, e).current == c.current || Entries(c, e) == [Forced];
  }

  lemma MaximumStep(c: Controller, d: Controller, log: seq<Entry>, added: seq<Entry>)
    requires Moves(c, d, added) && IsMaximum(c.target, log)
    ensures IsMaximum(d.target, log + added)
  {
    var whole := log + added;
    if d.target != c.target {
      assert StampOf(whole[|log|]) == d.target;
    } else if c.target.Some? {
      var i :| 0 <= i < |log| && StampOf(log[i]) == c.target;
      assert StampOf(whole[i]) == d.target;
    }
  }

  lemma OrderedStep(c: Controller, d: Controller, log: seq<Entry>, added: seq<Entry>)
    requires Moves(c, d, added) && IsMaximum(c.target, log) && Ordered(log)
    requires c.stopped <==> Halted in log
    ensures Ordered(log + added)
    ensures d.stopped <==> Halted in log + added
  {}

  lemma RepublishStep(c: Controller, d: Controller, log: seq<Entry>, added: seq<Entry>)
    requires Moves(c, d, added) && IsMaximum(c.target, log)
    requires NoIdleRepublish(log) && Accounted(c, log)
    ensures NoIdleRepublish(log + added)
  {
    var whole := log + added;
    forall i, j | 0 <= i < j < |whole| && whole[i].Applied? && whole[j].Applied?
                  && whole[i].snapshot.state == whole[j].snapshot.state
      ensures ForcedBetween(whole, i, j)
    {
      assert ForcedBetween(log, i, j);
      var k :| i < k < j && k < |log| && log[k].Forced?;
      assert whole[k].Forced?;
    }
  }

  lemma AccountedStep(c: Controller, d: Controller, log: seq<Entry>, added: seq<Entry>)
    requires Moves(c, d, added) && IsMaximum(c.target, log) && Accounted(c, log)
    ensures Accounted(d, log + added)
  {
    var whole := log + added;
    forall i | 0 <= i < |log| && log[i].Applied?
      ensures d.current == Some(log[i].snapshot.state) || ForcedBetween(whole, i, |whole|)
              || Newer(d.target, log[i].snapshot.state)
    {
      assert StampOf(log[i]) == Some(log[i].snapshot.state);
      if ForcedBetween(log, i, |log|) {
        var k :| i < k < |log| && log[k].Forced?;
        assert whole[k].Forced?;
      } else if added == [Forced] {
        assert whole[|log|].Forced?;
      }
    }
  }

  lemma EventKeepsInv(t: Trace, e: Event)
    requires TraceInv(t) && Enabled(t.ctl, e)
    ensures TraceInv(Advance(t, e))
  {
    var d, added := Next(t.ctl, e), Entries(t.ctl, e);
    if e.Invalidate? || e.Check? || e.Stop? || e.Microtask? {
      CallKeepsInv(t.ctl, e);
    } else {
      ResumptionKeepsInv(t.ctl, e);
    }
    EventMoves(t.ctl, e);
    MaximumStep(t.ctl, d, t.log, added);
    OrderedStep(t.ctl, d, t.log, added);
    RepublishStep(t.ctl, d, t.log, added);
    AccountedStep(t.ctl, d, t.log, added);
  }

  lemma {:induction false} RunKeepsInv(t: Trace, events: seq<Event>)
    requires TraceInv(t) && Legal(t, events)
    ensures TraceInv(Run(t, events))
    decreases |events|
  {
    if events != [] {
      EventKeepsInv(t, events[0]);
      RunKeepsInv(Advance(t, events[0]), events[1..]);
    }
  }

  /* ---- Results over every run ---- */

  lemma NoForgottenInvalidation(events: seq<Event>)
    requires Legal(Begin(), events)
    ensures var t := Run(Begin(), events);
            !t.ctl.stopped && !t.ctl.running ==>
              || t.ctl.dirty
              || forall i | 0 <= i < |t.log| && t.log[i].Delivered? :: Bounds(t.ctl.current, t.log[i].target)
  {
    RunKeepsInv(Begin(), events);
    var t := Run(Begin(), events);
    assert forall i | 0 <= i < |t.log| && t.log[i].Delivered? :: StampOf(t.log[i]) == Some(t.log[i].target);
  }

  lemma MonotonePublication(events: seq<Event>)
    requires Legal(Begin(), events)
    ensures var t := Run(Begin(), events);
            Ordered(t.log) && IsMaximum(t.ctl.target, t.log) && NoIdleRepublish(t.log)
  {
    RunKeepsInv(Begin(), events);
  }

  /* ---- A refresh always ends ---- */

  function Rank(f: Frame): int {
    match f
    case NotRunning => 0
    case Settled => 1
    case Rejected => 2
    case Applying(a) => 5 * (MAX_ATTEMPTS - a) - 2
    case AwaitingRecheck(a, _, _, _) => 5 * (MAX_ATTEMPTS - a) - 1
    case AwaitingRows(a, _, categories, products) =>
      5 * (MAX_ATTEMPTS - a) + (if categories.None? && products.None? then 1 else 0)
    case AwaitingState(a) => 5 * (MAX_ATTEMPTS - a) + 2
  }

  // Whatever arrives, each resumption brings the running refresh closer to its
  // end, and no call made meanwhile can push it back: three attempts at most.
  lemma {:induction false} RefreshIsBounded(c: Controller, e: Event)
    requires ControllerInv(c) && Enabled(c, e) && c.running
    ensures 0 < Rank(c.frame) <= 5 * MAX_ATTEMPTS + 2
    ensures if e.Invalidate? || e.Check? || e.Stop? || e.Microtask?
            then Next(c, e).frame == c.frame
            else 0 <= Rank(Next(c, e).frame) < Rank(c.frame)
  {
    match e
    case StateReply(s) => assert c.frame.attempt < MAX_ATTEMPTS;
    case _ =>
  }

  // One of the calls that are left behind: an invalidation that lands after the
  // last attempt but before `running` is cleared stays recorded in `dirty`, yet
  // nothing is scheduled to act on it.
  lemma {:induction false} LateInvalidationWaitsForACheck(s: Stamp, later: Stamp)
    requires Older(s, later)
    ensures exists events: seq<Event> :: Legal(Begin(), events) &&
              var c := Run(Begin(), events).ctl;
              && !c.running && !c.stopped && !c.scheduled
              && c.dirty && c.current == Some(s) && c.target == Some(later)
  {
    var t1 := Advance(Begin(), Check(false));
    var t2 := Advance(t1, StateReply(s));
    var t3 := Advance(t2, CategoriesReply([]));
    var t4 := Advance(t3, ProductsReply([]));
    var t5 := Advance(t4, StateReply(s));
    var t6 := Advance(t5, ApplyReturns);
    var t7 := Advance(t6, Invalidate(Some(later)));
    var t8 := Advance(t7, Finally);
    assert Legal(t8, []) && Run(t8, []) == t8;
    RunStartsWith(t7, Finally, []);
    RunStartsWith(t6, Invalidate(Some(later)), [Finally]);
    RunStartsWith(t5, ApplyReturns, [Invalidate(Some(later)), Finally]);
    var tail := [ApplyReturns] + [Invalidate(Some(later)), Finally];
    RunStartsWith(t4, StateReply(s), tail);
    RunStartsWith(t3, ProductsReply([]), [StateReply(s)] + tail);
    RunStartsWith(t2, CategoriesReply([]), [ProductsReply([])] + ([StateReply(s)] + tail));
    var most := [CategoriesReply([])] + ([ProductsReply([])] + ([StateReply(s)] + tail));
    RunStartsWith(t1, StateReply(s), most);
    RunStartsWith(Begin(), Check(false), [StateReply(s)] + most);
  }

  lemma {:induction false} RunStartsWith(t: Trace, e: Event, rest: seq<Event>)
    requires Enabled(t.ctl, e) && Legal(Advance(t, e), rest)
    ensures Legal(t, [e] + rest) && Run(t, [e] + rest) == Run(Advance(t, e), rest)
  {
    assert ([e] + rest)[1..] == rest;
  }
}
