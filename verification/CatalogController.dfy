/**
 The catalog refresher of the client SDK.  `refresh` is a coroutine: `Frame` is
 the await point at which it is suspended, and every step between two await
 points is one atomic event.  The specification functions say what one event
 does to the controller; the class performs the same events in place.
 */
module CatalogController {
  import opened Wrappers

  const MAX_ATTEMPTS := 3

  datatype Stamp = Stamp(recoveryEpoch: nat, catalogGeneration: nat)

  predicate Older(a: Stamp, b: Stamp) {
    || a.recoveryEpoch < b.recoveryEpoch
    || (a.recoveryEpoch == b.recoveryEpoch && a.catalogGeneration < b.catalogGeneration)
  }

  // Rows are carried as opaque text: the controller never looks inside them.
  type Rows = seq<string>

  datatype Snapshot = Snapshot(state: Stamp, categories: Rows, products: Rows)

  datatype Frame =
    | NotRunning
    | AwaitingState(attempt: nat)
    | AwaitingRows(attempt: nat, before: Stamp, categories: Option<Rows>, products: Option<Rows>)
    | AwaitingRecheck(attempt: nat, before: Stamp, categoryRows: Rows, productRows: Rows)
    | Applying(attempt: nat) // inside the `apply` callback, which may call the controller back
    | Rejected               // `refresh` threw; the catch handler has not run yet
    | Settled                // `refresh` is over; the finally handler has not run yet

  datatype Controller = Controller(
    current: Option<Stamp>,
    snapshot: Option<Snapshot>,
    target: Option<Stamp>,
    running: bool,
    dirty: bool,
    stopped: bool,
    scheduled: bool,
    frame: Frame)

  datatype Event =
    | Invalidate(target: Option<Stamp>)
    | Check(force: bool)
    | Stop
    | Microtask
    | StateReply(stamp: Stamp)
    | CategoriesReply(rows: Rows)
    | ProductsReply(rows: Rows)
    | ReadFails
    | ApplyReturns
    | ApplyThrows
    | Catch
    | Finally

  function Initial(): Controller {
    Controller(None, None, None, false, false, false, false, NotRunning)
  }

  // Calls may come at any time; the others need the coroutine to be waiting for them.
  predicate Enabled(c: Controller, e: Event) {
    match e
    case Invalidate(_) | Check(_) | Stop => true
    case Microtask => c.scheduled
    case StateReply(_) => c.frame.AwaitingState? || c.frame.AwaitingRecheck?
    case CategoriesReply(_) => c.frame.AwaitingRows? && c.frame.categories.None?
    case ProductsReply(_) => c.frame.AwaitingRows? && c.frame.products.None?
    case ReadFails => c.frame.AwaitingState? || c.frame.AwaitingRows? || c.frame.AwaitingRecheck?
    case ApplyReturns | ApplyThrows => c.frame.Applying?
    case Catch => c.frame.Rejected?
    case Finally => c.frame.Settled?
  }

  function Next(c: Controller, e: Event): Controller
    requires Enabled(c, e)
  {
    match e
    case Invalidate(t) => AfterInvalidate(c, t)
    case Check(force) => AfterCheck(c, force)
    case Stop => c.(stopped := true)
    case Microtask => AfterCheck(c.(scheduled := false), false)
    case StateReply(s) => if c.frame.AwaitingState? then AfterState(c, s) else AfterRecheck(c, s)
    case CategoriesReply(rows) => AfterRows(c, Some(rows), c.frame.products)
    case ProductsReply(rows) => AfterRows(c, c.frame.categories, Some(rows))
    case ReadFails | ApplyThrows => c.(frame := Rejected)
    case ApplyReturns => if c.dirty then LoopHead(c, c.frame.attempt + 1) else c.(frame := Settled)
    case Catch => c.(dirty := true, frame := Settled)
    case Finally => c.(running := false, frame := NotRunning)
  }

  predicate Newer(target: Option<Stamp>, s: Stamp) {
    target.Some? && Older(s, target.value)
  }

  function AfterInvalidate(c: Controller, t: Option<Stamp>): Controller {
    if c.stopped then c
    else
      var target := if t.Some? && (c.target.None? || Older(c.target.value, t.value)) then t else c.target;
      if t.Some? && c.current.Some? && !Older(c.current.value, t.value) then c.(target := target)
      else c.(target := target, dirty := true, scheduled := c.scheduled || !c.running)
  }

  function AfterCheck(c: Controller, force: bool): Controller {
    if c.stopped then c
    else
      var forced := if force then c.(current := None, dirty := true) else c;
      if c.running then forced else LoopHead(forced.(running := true), 0)
  }

  // The head of the retry loop: start an attempt, or fall out of the loop.
  function LoopHead(c: Controller, attempt: nat): Controller {
    if attempt < MAX_ATTEMPTS && !c.stopped
    then c.(dirty := false, frame := AwaitingState(attempt))
    else c.(frame := Settled)
  }

  function AfterState(c: Controller, before: Stamp): Controller
    requires c.frame.AwaitingState?
  {
    if Newer(c.target, before) then LoopHead(c.(dirty := true), c.frame.attempt + 1)
    else if c.current == Some(before) then c.(frame := Settled)
    else c.(frame := AwaitingRows(c.frame.attempt, before, None, None))
  }

  function AfterRows(c: Controller, categories: Option<Rows>, products: Option<Rows>): Controller
    requires c.frame.AwaitingRows?
  {
    var f := c.frame;
    if categories.Some? && products.Some?
    then c.(frame := AwaitingRecheck(f.attempt, f.before, categories.value, products.value))
    else c.(frame := AwaitingRows(f.attempt, f.before, categories, products))
  }

  predicate Publishes(c: Controller, after: Stamp) {
    c.frame.AwaitingRecheck? && !c.stopped && c.frame.before == after && !Newer(c.target, after)
  }

  function AfterRecheck(c: Controller, after: Stamp): Controller
    requires c.frame.AwaitingRecheck?
  {
    var f := c.frame;
    if c.stopped then c.(frame := Settled)
    else if !Publishes(c, after) then LoopHead(c.(dirty := true), f.attempt + 1)
    else c.(current := Some(after), target := Some(after),
            snapshot := Some(Snapshot(after, f.categoryRows, f.productRows)),
            frame := Applying(f.attempt))
  }

  class CatalogInvalidationController {
    var current: Option<Stamp>
    var snapshot: Option<Snapshot>
    var target: Option<Stamp>
    var running: bool
    var dirty: bool
    var stopped: bool
    var scheduled: bool
    var frame: Frame // where the running `refresh` is suspended

    function View(): Controller
      reads this
    {
      Controller(current, snapshot, target, running, dirty, stopped, scheduled, frame)
    }

    constructor ()
      ensures View() == Initial()
    {
      current, snapshot, target := None, None, None;
      running, dirty, stopped, scheduled := false, false, false, false;
      frame := NotRunning;
    }

    method Invalidate(t: Option<Stamp>)
      modifies this
      ensures View() == Next(old(View()), Event.Invalidate(t))
    {
      if stopped { return; }
      if t.Some? && (target.None? || Older(target.value, t.value)) { target := t; }
      if current.Some? && t.Some? && (Older(t.value, current.value) || current == t) { return; }
      dirty := true;
      if !scheduled && !running { scheduled := true; }
    }

    method Check(force: bool)
      modifies this
      ensures View() == Next(old(View()), Event.Check(force))
    {
      if stopped { return; }
      if force {
        current := None;
        dirty := true;
      }
      if running { return; }
      running := true;
      Iterate(0);
    }

    // The microtask queued by `Invalidate`.
    method RunMicrotask()
      requires scheduled
      modifies this
      ensures View() == Next(old(View()), Microtask)
    {
      scheduled := false;
      Check(false);
    }

    method Stop()
      modifies this
      ensures View() == Next(old(View()), Event.Stop)
    {
      stopped := true;
    }

    method Iterate(attempt: nat)
      modifies this
      ensures View() == LoopHead(old(View()), attempt)
    {
      if attempt < MAX_ATTEMPTS && !stopped {
        dirty := false;
        frame := AwaitingState(attempt);
      } else {
        frame := Settled;
      }
    }

    method ResumeWithState(before: Stamp)
      requires frame.AwaitingState?
      modifies this
      ensures View() == Next(old(View()), StateReply(before))
    {
      var attempt := frame.attempt;
      if target.Some? && Older(before, target.value) {
        dirty := true;
        Iterate(attempt + 1);
      } else if current == Some(before) {
        frame := Settled;
      } else {
        frame := AwaitingRows(attempt, before, None, None);
      }
    }

    method ReceiveCategories(rows: Rows)
      requires frame.AwaitingRows? && frame.categories.None?
      modifies this
      ensures View() == Next(old(View()), CategoriesReply(rows))
    {
      frame := frame.(categories := Some(rows));
      ResumeIfComplete();
    }

    method ReceiveProducts(rows: Rows)
      requires frame.AwaitingRows? && frame.products.None?
      modifies this
      ensures View() == Next(old(View()), ProductsReply(rows))
    {
      frame := frame.(products := Some(rows));
      ResumeIfComplete();
    }

    // Promise.all: go on once both resources have answered.
    method ResumeIfComplete()
      requires frame.AwaitingRows?
      modifies this
      ensures View() == AfterRows(old(View()), old(frame.categories), old(frame.products))
    {
      match frame
      case AwaitingRows(attempt, before, Some(categories), Some(products)) =>
        frame := AwaitingRecheck(attempt, before, categories, products);
      case _ =>
    }

    // `published` is the value handed to the `apply` callback, if it is called.
    method ResumeWithRecheck(after: Stamp) returns (published: Option<Snapshot>)
      requires frame.AwaitingRecheck?
      modifies this
      ensures View() == Next(old(View()), StateReply(after))
      ensures published.Some? <==> Publishes(old(View()), after)
      ensures published.Some? ==> published == snapshot && published.value.state == after
    {
      published := None;
      var AwaitingRecheck(attempt, before, categories, products) := frame;
      if stopped {
        frame := Settled;
        return;
      }
      if before != after || (target.Some? && Older(after, target.value)) {
        dirty := true;
        Iterate(attempt + 1);
        return;
      }
      current := Some(after);
      target := Some(after);
      snapshot := Some(Snapshot(after, categories, products));
      published := snapshot;
      frame := Applying(attempt);
    }

    method ResumeAfterApply()
      requires frame.Applying?
      modifies this
      ensures View() == Next(old(View()), ApplyReturns)
    {
      if !dirty {
        frame := Settled;
      } else {
        Iterate(frame.attempt + 1);
      }
    }

    // A read was refused, or the `apply` callback threw.
    method Throw()
      requires frame.AwaitingState? || frame.AwaitingRows? || frame.AwaitingRecheck? || frame.Applying?
      modifies this
      ensures View() == Next(old(View()), if old(frame).Applying? then ApplyThrows else ReadFails)
    {
      frame := Rejected;
    }

    // `notify` says whether the `unavailable` callback is called.
    method HandleRejection() returns (notify: bool)
      requires frame.Rejected?
      modifies this
      ensures View() == Next(old(View()), Catch)
      ensures notify <==> !stopped
    {
      dirty := true;
      notify := !stopped;
      frame := Settled;
    }

    method HandleSettlement()
      requires frame.Settled?
      modifies this
      ensures View() == Next(old(View()), Finally)
    {
      running := false;
      frame := NotRunning;
    }
  }
}
