/**
 The catalog controller against a real source: a history of versions whose
 stamps strictly increase.  A reply carries what the source held at one instant
 between the request and the reply.
 */
module CatalogHistory {
  import opened Wrappers
  import opened CatalogController
  import opened CatalogRuns

  type History = h: seq<Snapshot> | h != [] witness [Snapshot(Stamp(0, 0), [], [])]

  function Latest(h: History): Snapshot { h[|h| - 1] }

  // A snapshot handed to `apply`, the version it copies, and the newest version
  // that existed when the attempt that published it began.
  datatype Publication = Publication(snapshot: Snapshot, version: nat, since: nat)

  // `issuedAt` is the newest version when the outstanding read was issued; the
  // other indices say which version each finished read of this attempt saw.
  datatype World = World(
    ctl: Controller,
    history: History,
    published: seq<Publication>,
    attemptAt: nat,
    issuedAt: nat,
    beforeAt: nat,
    categoriesAt: nat,
    productsAt: nat)

  datatype Move = Commit(version: Snapshot) | Act(event: Event, at: nat)

  function Launch(first: Snapshot): World {
    World(Initial(), [first], [], 0, 0, 0, 0, 0)
  }

  predicate Truthful(w: World, e: Event, at: nat) {
    match e
    case StateReply(s) => w.issuedAt <= at < |w.history| && s == w.history[at].state
    case CategoriesReply(rows) => w.issuedAt <= at < |w.history| && rows == w.history[at].categories
    case ProductsReply(rows) => w.issuedAt <= at < |w.history| && rows == w.history[at].products
    case _ => true
  }

  predicate Possible(w: World, m: Move) {
    match m
    case Commit(v) => Older(Latest(w.history).state, v.state)
    case Act(e, at) => Enabled(w.ctl, e) && Truthful(w, e, at)
  }

  // Does this resumption issue a new read?
  predicate Issues(before: Frame, after: Frame) {
    && before != after
    && (after.AwaitingState? || after.AwaitingRecheck? || (after.AwaitingRows? && !before.AwaitingRows?))
  }

  function Play(w: World, m: Move): World
    requires Possible(w, m)
  {
    match m
    case Commit(v) => w.(history := w.history + [v])
    case Act(e, at) =>
      var d := Next(w.ctl, e);
      var newest := |w.history| - 1;
      w.(ctl := d,
         issuedAt := if Issues(w.ctl.frame, d.frame) then newest else w.issuedAt,
         attemptAt := if d.frame.AwaitingState? && d.frame != w.ctl.frame then newest else w.attemptAt,
         beforeAt := if e.StateReply? && w.ctl.frame.AwaitingState? then at else w.beforeAt,
         categoriesAt := if e.CategoriesReply? then at else w.categoriesAt,
         productsAt := if e.ProductsReply? then at else w.productsAt,
         published := if e.StateReply? && Publishes(w.ctl, e.stamp)
                      then w.published + [Publication(d.snapshot.value, at, w.attemptAt)]
                      else w.published)
  }

  predicate Playable(w: World, moves: seq<Move>)
    decreases |moves|
  {
    moves == [] || (Possible(w, moves[0]) && Playable(Play(w, moves[0]), moves[1..]))
  }

  function PlayAll(w: World, moves: seq<Move>): World
    requires Playable(w, moves)
    decreases |moves|
  {
    if moves == [] then w else PlayAll(Play(w, moves[0]), moves[1..])
  }

  /* ---- What every move keeps ---- */

  ghost predicate Increasing(history: History) {
    forall i, j | 0 <= i < j < |history| :: Older(history[i].state, history[j].state)
  }

  ghost predicate Genuine(p: Publication, history: History) {
    p.since <= p.version < |history| && p.snapshot == history[p.version]
  }

  ghost predicate ReadsInv(w: World) {
    var h := w.history;
    && w.issuedAt < |h| && w.beforeAt < |h| && w.categoriesAt < |h| && w.productsAt < |h|
    && match w.ctl.frame
       case AwaitingState(_) => w.attemptAt <= w.issuedAt
       case AwaitingRows(_, before, categories, products) =>
         && w.attemptAt <= w.beforeAt <= w.issuedAt && h[w.beforeAt].state == before
         && (categories.Some? ==> w.issuedAt <= w.categoriesAt && h[w.categoriesAt].categories == categories.value)
         && (products.Some? ==> w.issuedAt <= w.productsAt && h[w.productsAt].products == products.value)
       case AwaitingRecheck(_, before, categories, products) =>
         && w.attemptAt <= w.beforeAt && h[w.beforeAt].state == before
         && w.beforeAt <= w.categoriesAt <= w.issuedAt && h[w.categoriesAt].categories == categories
         && w.beforeAt <= w.productsAt <= w.issuedAt && h[w.productsAt].products == products
       case _ => true
  }

  ghost predicate PublishedInv(w: World) {
    && (forall i | 0 <= i < |w.published| :: Genuine(w.published[i], w.history))
    && (w.ctl.snapshot.Some? ==>
          w.published != [] && w.ctl.snapshot.value == w.published[|w.published| - 1].snapshot)
  }

  ghost predicate WorldInv(w: World) {
    ControllerInv(w.ctl) && Increasing(w.history) && ReadsInv(w) && PublishedInv(w)
  }

  lemma StampNamesVersion(history: History, i: nat, j: nat)
    requires Increasing(history) && i < |history| && j < |history|
    requires history[i].state == history[j].state
    ensures i == j
  {}

  lemma ReadsStep(w: World, e: Event, at: nat)
    requires WorldInv(w) && Possible(w, Act(e, at))
    ensures ReadsInv(Play(w, Act(e, at)))
  {
    if e.Invalidate? || e.Check? || e.Stop? || e.Microtask? {
      CallsKeepTheReads(w.ctl, e);
    } else if e.StateReply? {
      StateReadsStep(w, e.stamp, at);
    } else {
      RowReadsStep(w, e, at);
    }
  }

  lemma StateReadsStep(w: World, s: Stamp, at: nat)
    requires ControllerInv(w.ctl) && ReadsInv(w) && Possible(w, Act(StateReply(s), at))
    ensures ReadsInv(Play(w, Act(StateReply(s), at)))
  {}

  lemma RowReadsStep(w: World, e: Event, at: nat)
    requires ControllerInv(w.ctl) && ReadsInv(w) && Possible(w, Act(e, at))
    requires !e.Invalidate? && !e.Check? && !e.Stop? && !e.Microtask? && !e.StateReply?
    ensures ReadsInv(Play(w, Act(e, at)))
  {}

  // A call changes the frame only by starting the first attempt.
  lemma CallsKeepTheReads(c: Controller, e: Event)
    requires ControllerInv(c) && Enabled(c, e)
    requires e.Invalidate? || e.Check? || e.Stop? || e.Microtask?
    ensures var d := Next(c, e);
            d.frame == c.frame || (c.frame.NotRunning? && d.frame == AwaitingState(0))
  {}

  // The second state read closes the window: every read of the attempt saw one version.
  lemma RecheckSeesOneVersion(w: World, s: Stamp, at: nat)
    requires WorldInv(w) && Possible(w, Act(StateReply(s), at)) && Publishes(w.ctl, s)
    ensures Next(w.ctl, StateReply(s)).snapshot == Some(w.history[at])
    ensures w.attemptAt <= at
  {
    StampNamesVersion(w.history, w.beforeAt, at);
  }

  lemma PublishedStep(w: World, e: Event, at: nat)
    requires WorldInv(w) && Possible(w, Act(e, at))
    ensures PublishedInv(Play(w, Act(e, at)))
  {
    if e.StateReply? && Publishes(w.ctl, e.stamp) {
      RecheckSeesOneVersion(w, e.stamp, at);
    } else {
      SnapshotStays(w.ctl, e);
    }
  }

  lemma SnapshotStays(c: Controller, e: Event)
    requires Enabled(c, e) && !(e.StateReply? && Publishes(c, e.stamp))
    ensures Next(c, e).snapshot == c.snapshot
  {}

  lemma MoveKeepsInv(w: World, m: Move)
    requires WorldInv(w) && Possible(w, m)
    ensures WorldInv(Play(w, m))
  {
    match m
    case Commit(v) =>
    case Act(e, at) =>
      if e.Invalidate? || e.Check? || e.Stop? || e.Microtask? {
        CallKeepsInv(w.ctl, e);
      } else {
        ResumptionKeepsInv(w.ctl, e);
      }
      ReadsStep(w, e, at);
      PublishedStep(w, e, at);
  }

  lemma {:induction false} PlayKeepsInv(w: World, moves: seq<Move>)
    requires WorldInv(w) && Playable(w, moves)
    ensures WorldInv(PlayAll(w, moves))
    decreases |moves|
  {
    if moves != [] {
      MoveKeepsInv(w, moves[0]);
      PlayKeepsInv(Play(w, moves[0]), moves[1..]);
    }
  }

  /* ---- Results over every run ---- */

  // Every snapshot handed out is one version of the source, whole, and was the
  // source's version at some instant of the attempt that published it.
  lemma SnapshotTruth(first: Snapshot, moves: seq<Move>)
    requires Playable(Launch(first), moves)
    ensures var w := PlayAll(Launch(first), moves);
            && (forall i | 0 <= i < |w.published| :: Genuine(w.published[i], w.history))
            && (w.ctl.snapshot.Some? ==> w.ctl.snapshot.value in w.history)
  {
    PlayKeepsInv(Launch(first), moves);
  }

  /* ---- A check that nothing disturbs ---- */

  // The next event when the source stays at version `v` and no call arrives.
  function QuietEvent(c: Controller, v: Snapshot): Event
    requires !c.frame.NotRunning?
  {
    match c.frame
    case AwaitingState(_) | AwaitingRecheck(_, _, _, _) => StateReply(v.state)
    case AwaitingRows(_, _, None, _) => CategoriesReply(v.categories)
    case AwaitingRows(_, _, _, _) => ProductsReply(v.products)
    case Applying(_) => ApplyReturns
    case Rejected => Catch
    case Settled => Finally
  }

  predicate Quiet(c: Controller, events: seq<Event>, v: Snapshot)
    decreases |events|
  {
    if events == [] then c.frame.NotRunning?
    else
      && !c.frame.NotRunning?
      && events[0] == QuietEvent(c, v)
      && Enabled(c, events[0])
      && Quiet(Next(c, events[0]), events[1..], v)
  }

  function Outcome(c: Controller, events: seq<Event>, v: Snapshot): Controller
    requires Quiet(c, events, v)
    decreases |events|
  {
    if events == [] then c else Outcome(Next(c, events[0]), events[1..], v)
  }

  lemma QuietStep(c: Controller, v: Snapshot, rest: seq<Event>)
    requires !c.frame.NotRunning? && Enabled(c, QuietEvent(c, v))
    requires Quiet(Next(c, QuietEvent(c, v)), rest, v)
    ensures Quiet(c, [QuietEvent(c, v)] + rest, v)
    ensures Outcome(c, [QuietEvent(c, v)] + rest, v) == Outcome(Next(c, QuietEvent(c, v)), rest, v)
  {
    assert ([QuietEvent(c, v)] + rest)[1..] == rest;
  }

  // The undisturbed schedule is forced, so its outcome does not depend on the proof.
  lemma {:induction false} QuietIsDeterministic(c: Controller, a: seq<Event>, b: seq<Event>, v: Snapshot)
    requires Quiet(c, a, v) && Quiet(c, b, v)
    ensures a == b
    decreases |a|
  {
    if a != [] && b != [] {
      QuietIsDeterministic(Next(c, a[0]), a[1..], b[1..], v);
      assert a == [a[0]] + a[1..] && b == [b[0]] + b[1..];
    }
  }

  function FullRefresh(v: Snapshot): seq<Event> {
    [StateReply(v.state), CategoriesReply(v.categories), ProductsReply(v.products),
     StateReply(v.state), ApplyReturns, Finally]
  }

  lemma {:induction false} RecheckRuns(c: Controller, v: Snapshot)
    requires c.frame == AwaitingRecheck(0, v.state, v.categories, v.products) && c.running
    requires !c.stopped && !c.dirty && !Newer(c.target, v.state)
    ensures Quiet(c, [StateReply(v.state), ApplyReturns, Finally], v)
    ensures var d := Outcome(c, [StateReply(v.state), ApplyReturns, Finally], v);
            !d.running && !d.dirty && d.current == d.target == Some(v.state) && d.snapshot == Some(v)
  {
    var c1 := Next(c, StateReply(v.state));
    var c2 := Next(c1, ApplyReturns);
    var c3 := Next(c2, Finally);
    assert Quiet(c3, [], v) && Outcome(c3, [], v) == c3;
    QuietStep(c2, v, []);
    QuietStep(c1, v, [Finally]);
    QuietStep(c, v, [ApplyReturns, Finally]);
  }

  lemma {:induction false} FullRefreshRuns(c: Controller, v: Snapshot)
    requires c.frame == AwaitingState(0) && c.running && !c.stopped && !c.dirty
    requires !Newer(c.target, v.state) && c.current != Some(v.state)
    ensures Quiet(c, FullRefresh(v), v)
    ensures var d := Outcome(c, FullRefresh(v), v);
            !d.running && !d.dirty && d.current == d.target == Some(v.state) && d.snapshot == Some(v)
  {
    var c1 := Next(c, StateReply(v.state));
    var c2 := Next(c1, CategoriesReply(v.categories));
    var c3 := Next(c2, ProductsReply(v.products));
    RecheckRuns(c3, v);
    var rest := [StateReply(v.state), ApplyReturns, Finally];
    QuietStep(c2, v, rest);
    QuietStep(c1, v, [ProductsReply(v.products)] + rest);
    QuietStep(c, v, [CategoriesReply(v.categories)] + ([ProductsReply(v.products)] + rest));
    var replies := [CategoriesReply(v.categories)] + ([ProductsReply(v.products)] + rest);
    assert FullRefresh(v) == [StateReply(v.state)] + replies;
  }

  lemma {:induction false} UpToDateRuns(c: Controller, v: Snapshot)
    requires c.frame == AwaitingState(0) && c.running
    requires !Newer(c.target, v.state) && c.current == Some(v.state)
    ensures Quiet(c, [StateReply(v.state), Finally], v)
    ensures Outcome(c, [StateReply(v.state), Finally], v) == c.(running := false, frame := NotRunning)
  {
    var c1 := Next(c, StateReply(v.state));
    var c2 := Next(c1, Finally);
    assert Quiet(c2, [], v) && Outcome(c2, [], v) == c2;
    QuietStep(c1, v, []);
    QuietStep(c, v, [Finally]);
  }

  lemma {:induction false} LaggingSourceRuns(c: Controller, v: Snapshot)
    requires c.frame == AwaitingState(0) && c.running && !c.stopped && Newer(c.target, v.state)
    ensures var s := StateReply(v.state);
            && Quiet(c, [s, s, s, Finally], v)
            && Outcome(c, [s, s, s, Finally], v) == c.(dirty := true, running := false, frame := NotRunning)
  {
    var s := StateReply(v.state);
    var c1 := Next(c, s);
    var c2 := Next(c1, s);
    var c3 := Next(c2, s);
    var c4 := Next(c3, Finally);
    assert Quiet(c4, [], v) && Outcome(c4, [], v) == c4;
    QuietStep(c3, v, []);
    QuietStep(c2, v, [Finally]);
    QuietStep(c1, v, [s, Finally]);
    QuietStep(c, v, [s, s, Finally]);
  }

  // From every reachable idle state, one undisturbed check ends with the
  // source's own contents in one attempt exactly when no newer target has been
  // announced; otherwise it gives up after three state reads and stays dirty.
  // A forced check reads everything again even when it is at the newest stamp.
  lemma {:induction false} QuietConvergence(first: Snapshot, moves: seq<Move>, force: bool)
    requires Playable(Launch(first), moves)
    requires var c := PlayAll(Launch(first), moves).ctl; !c.stopped && !c.running
    ensures var w := PlayAll(Launch(first), moves);
            var v := Latest(w.history);
            var begun := Next(w.ctl, Check(force));
            exists events: seq<Event> ::
              Quiet(begun, events, v) && Converges(w.ctl, force, events, Outcome(begun, events, v), v)
  {
    PlayKeepsInv(Launch(first), moves);
    var w := PlayAll(Launch(first), moves);
    var v := Latest(w.history);
    var begun := Next(w.ctl, Check(force));
    if Newer(w.ctl.target, v.state) {
      LaggingSourceRuns(begun, v);
    } else if begun.current == Some(v.state) {
      var p := w.published[|w.published| - 1];
      StampNamesVersion(w.history, p.version, |w.history| - 1);
      UpToDateRuns(begun, v);
    } else {
      FullRefreshRuns(begun, v);
    }
  }

  // How a check from the idle state c ends, and by which events.
  ghost predicate Converges(c: Controller, force: bool, events: seq<Event>, done: Controller, v: Snapshot) {
    && !done.running
    && (done.snapshot == Some(v) && !done.dirty <==> !Newer(c.target, v.state))
    && (!Newer(c.target, v.state) ==>
          && done.current == Some(v.state)
          && events == if !force && c.current == Some(v.state) then [StateReply(v.state), Finally] else FullRefresh(v))
    && (Newer(c.target, v.state) ==>
          && done.snapshot == c.snapshot && done.current == (if force then None else c.current) && done.dirty
          && events == [StateReply(v.state), StateReply(v.state), StateReply(v.state), Finally])
  }
}
