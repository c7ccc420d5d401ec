/**
 What becomes of a call that asks for newer contents: exactly when the refresh
 that is running, or the microtask, follows it up without a further check.
 */
module CatalogFollowUp {
  import opened Wrappers
  import opened CatalogController
  import opened CatalogRuns
  import opened CatalogHistory

  predicate AttemptsLeft(f: Frame) {
    match f
    case AwaitingState(a) => a + 1 < MAX_ATTEMPTS
    case AwaitingRows(a, _, _, _) => a + 1 < MAX_ATTEMPTS
    case AwaitingRecheck(a, _, _, _) => a + 1 < MAX_ATTEMPTS
    case Applying(a) => a + 1 < MAX_ATTEMPTS
    case _ => false
  }

  /* ---- Where an undisturbed refresh ends, read off any of its states ---- */

  // It ends with `current` at the stamp s.
  predicate Catches(c: Controller, s: Stamp) {
    match c.frame
    case AwaitingState(_) => true
    case AwaitingRows(_, before, _, _) => c.current == Some(s) || before == s || AttemptsLeft(c.frame)
    case AwaitingRecheck(_, before, _, _) => c.current == Some(s) || before == s || AttemptsLeft(c.frame)
    case Applying(_) => c.current == Some(s) || (c.dirty && AttemptsLeft(c.frame))
    case _ => c.current == Some(s)
  }

  predicate EndsDirty(c: Controller, s: Stamp) {
    match c.frame
    case AwaitingState(_) => c.dirty && (c.current == Some(s) || !AttemptsLeft(c.frame))
    case AwaitingRows(_, before, _, _) => (c.dirty || before != s) && !AttemptsLeft(c.frame)
    case AwaitingRecheck(_, before, _, _) => (c.dirty || before != s) && !AttemptsLeft(c.frame)
    case Applying(_) => c.dirty && !AttemptsLeft(c.frame)
    case Rejected => true
    case _ => c.dirty
  }

  // Under way, against a source at s that no announced target is ahead of.
  predicate UnderWay(c: Controller, s: Stamp) {
    ControllerInv(c) && !c.stopped && !Newer(c.target, s)
  }

  lemma QuietEventIsEnabled(c: Controller, v: Snapshot)
    requires ControllerInv(c) && c.running
    ensures Enabled(c, QuietEvent(c, v))
    ensures ControllerInv(Next(c, QuietEvent(c, v)))
    ensures 0 <= Rank(Next(c, QuietEvent(c, v)).frame) < Rank(c.frame)
  {
    ResumptionKeepsInv(c, QuietEvent(c, v));
    RefreshIsBounded(c, QuietEvent(c, v));
  }

  lemma QuietEventKeepsTheEnd(c: Controller, v: Snapshot)
    requires UnderWay(c, v.state) && c.running && Enabled(c, QuietEvent(c, v))
    ensures var d := Next(c, QuietEvent(c, v));
            && !d.stopped && !Newer(d.target, v.state) && d.scheduled == c.scheduled
            && (Catches(d, v.state) <==> Catches(c, v.state)) && (EndsDirty(d, v.state) <==> EndsDirty(c, v.state))
            && (d.current == c.current || d.current == Some(v.state))
  {}

  // Every refresh that nothing disturbs comes to that end.
  lemma {:induction false} QuietEnds(c: Controller, v: Snapshot) returns (events: seq<Event>)
    requires UnderWay(c, v.state)
    ensures Quiet(c, events, v)
    ensures var done := Outcome(c, events, v);
            && !done.running && done.scheduled == c.scheduled
            && (done.current == Some(v.state) <==> Catches(c, v.state))
            && (done.current == c.current || done.current == Some(v.state))
            && (done.dirty <==> EndsDirty(c, v.state))
    decreases Rank(c.frame)
  {
    if c.running {
      QuietEventIsEnabled(c, v);
      QuietEventKeepsTheEnd(c, v);
      events := QuietEnds(Next(c, QuietEvent(c, v)), v);
      QuietStep(c, v, events);
      events := [QuietEvent(c, v)] + events;
    } else {
      events := [];
    }
  }

  /* ---- With the source itself ---- */

  function AtNewest(events: seq<Event>, newest: nat): seq<Move> {
    seq(|events|, i requires 0 <= i < |events| => Act(events[i], newest))
  }

  lemma QuietMoveIsPossible(w: World, e: Event)
    requires w.issuedAt < |w.history| && !w.ctl.frame.NotRunning?
    requires e == QuietEvent(w.ctl, Latest(w.history)) && Enabled(w.ctl, e)
    ensures var m := Act(e, |w.history| - 1);
            && Possible(w, m) && Play(w, m).issuedAt < |w.history|
            && Play(w, m).ctl == Next(w.ctl, e) && Play(w, m).history == w.history
  {}

  // An undisturbed refresh is a run against a source that stays as it is.
  lemma {:induction false} QuietIsPlayable(w: World, events: seq<Event>)
    requires w.issuedAt < |w.history| && Quiet(w.ctl, events, Latest(w.history))
    ensures var moves := AtNewest(events, |w.history| - 1);
            && Playable(w, moves) && PlayAll(w, moves).history == w.history
            && PlayAll(w, moves).ctl == Outcome(w.ctl, events, Latest(w.history))
    decreases |events|
  {
    if events != [] {
      var newest := |w.history| - 1;
      QuietMoveIsPossible(w, events[0]);
      QuietIsPlayable(Play(w, Act(events[0], newest)), events[1..]);
      assert AtNewest(events, newest)[1..] == AtNewest(events[1..], newest);
    }
  }

  // Being at the newest stamp means having the newest contents.
  lemma CurrentHasTheContents(w: World)
    requires WorldInv(w) && w.ctl.current == Some(Latest(w.history).state)
    ensures w.ctl.snapshot == Some(Latest(w.history))
  {
    var p := w.published[|w.published| - 1];
    StampNamesVersion(w.history, p.version, |w.history| - 1);
  }

  lemma {:induction false} OutcomeHasTheContents(w: World, events: seq<Event>)
    requires WorldInv(w) && Quiet(w.ctl, events, Latest(w.history))
    ensures var v, done := Latest(w.history), Outcome(w.ctl, events, Latest(w.history));
            done.current == Some(v.state) ==> done.snapshot == Some(v)
  {
    var moves := AtNewest(events, |w.history| - 1);
    QuietIsPlayable(w, events);
    PlayKeepsInv(w, moves);
    var ended := PlayAll(w, moves);
    if ended.ctl.current == Some(Latest(w.history).state) { CurrentHasTheContents(ended); }
  }

  // A call that says the snapshot is not good enough, and is not ignored: an
  // invalidation past what is current, or with no target, or a forced check.
  predicate AsksForMore(c: Controller, e: Event) {
    match e
    case Invalidate(Some(t)) => c.current.None? || Older(c.current.value, t)
    case Invalidate(None) => true
    case Check(force) => force
    case _ => false
  }

  // An idle controller that only scheduled a microtask starts in it.
  function FromThere(c: Controller, e: Event): Controller
    requires Enabled(c, e) && (Next(c, e).running || Next(c, e).scheduled)
  {
    if Next(c, e).running then Next(c, e) else Next(Next(c, e), Microtask)
  }

  // Readable from the frame at the call: the running refresh can still read s.
  predicate CanStillRead(f: Frame, s: Stamp) {
    match f
    case AwaitingState(_) => true
    case AwaitingRows(_, before, _, _) => before == s || AttemptsLeft(f)
    case AwaitingRecheck(_, before, _, _) => before == s || AttemptsLeft(f)
    case Applying(_) => AttemptsLeft(f)
    case _ => false
  }

  lemma CallIsUnderWay(c: Controller, e: Event, s: Stamp)
    requires ControllerInv(c) && !c.stopped && AsksForMore(c, e) && !Newer(Next(c, e).target, s)
    ensures Next(c, e).running || Next(c, e).scheduled
    ensures var d := FromThere(c, e);
            && UnderWay(d, s) && d.running && d.current == Next(c, e).current
            && (c.running ==> d.frame == c.frame && d.dirty && d.scheduled == c.scheduled)
            && (!c.running ==> d.frame == AwaitingState(0) && !d.dirty)
  {
    CallKeepsInv(c, e);
    if !c.running && e.Invalidate? { CallKeepsInv(Next(c, e), Microtask); }
  }

  // The call leaves `current` at the stamp s; a target past `current` or a forced
  // check never does when s is not behind the target.
  predicate HasCurrent(c: Controller, e: Event, s: Stamp)
    requires Enabled(c, e)
  {
    Next(c, e).current == Some(s)
  }

  lemma OnlyUntargetedCallsHaveCurrent(c: Controller, e: Event, s: Stamp)
    requires ControllerInv(c) && !c.stopped && AsksForMore(c, e) && !Newer(Next(c, e).target, s)
    ensures HasCurrent(c, e, s) ==> e == Invalidate(None) && c.current == Some(s)
  {}

  // Where the undisturbed continuation of a call ends, in terms of the call.
  predicate EndsAsItCan(c: Controller, e: Event, done: Controller, v: Snapshot)
    requires Enabled(c, e)
  {
    && !done.running
    && (done.current == Some(v.state) <==> !c.running || HasCurrent(c, e, v.state) || CanStillRead(c.frame, v.state))
    && (done.current == Some(v.state) ==> done.snapshot == Some(v))
    && (done.current != Some(v.state) ==> done.dirty && done.current == Next(c, e).current)
    && (done.dirty <==>
          c.running && (!AttemptsLeft(c.frame) || (c.frame.AwaitingState? && HasCurrent(c, e, v.state))))
    && (c.running ==> done.scheduled == c.scheduled)
  }

  lemma {:induction false} ContinuationEnds(w: World, e: Event) returns (events: seq<Event>)
    requires WorldInv(w) && !w.ctl.stopped && AsksForMore(w.ctl, e)
    requires !Newer(Next(w.ctl, e).target, Latest(w.history).state)
    ensures Next(w.ctl, e).running || Next(w.ctl, e).scheduled
    ensures var d, v := FromThere(w.ctl, e), Latest(w.history);
            Quiet(d, events, v) && EndsAsItCan(w.ctl, e, Outcome(d, events, v), v)
  {
    var v := Latest(w.history);
    CallIsUnderWay(w.ctl, e, v.state);
    var d := FromThere(w.ctl, e);
    events := QuietEnds(d, v);
    var called := AfterTheCall(w, e);
    OutcomeHasTheContents(called, events);
  }

  // From every reachable state, an accepted invalidation or a forced check, with
  // a source that stays at a version no target is ahead of, brings the source's
  // contents without a further call if and only if the controller was idle, or
  // has them, or its refresh can still read them.  It ends dirty exactly when
  // that refresh has no attempt left, or finds before it reads anything that it
  // is current.  Nothing new is scheduled while a refresh is running.
  lemma {:induction false} AcceptedCallIsFollowedUp(first: Snapshot, moves: seq<Move>, e: Event)
    requires Playable(Launch(first), moves)
    requires var w := PlayAll(Launch(first), moves);
             && !w.ctl.stopped && AsksForMore(w.ctl, e)
             && !Newer(Next(w.ctl, e).target, Latest(w.history).state)
    ensures var w := PlayAll(Launch(first), moves);
            var v := Latest(w.history);
            && (Next(w.ctl, e).running || Next(w.ctl, e).scheduled)
            && exists events: seq<Event> ::
                 && Quiet(FromThere(w.ctl, e), events, v)
                 && EndsAsItCan(w.ctl, e, Outcome(FromThere(w.ctl, e), events, v), v)
  {
    PlayKeepsInv(Launch(first), moves);
    var events := ContinuationEnds(PlayAll(Launch(first), moves), e);
  }

  lemma AfterTheCall(w: World, e: Event) returns (called: World)
    requires WorldInv(w) && AsksForMore(w.ctl, e) && !w.ctl.stopped
    requires Next(w.ctl, e).running || Next(w.ctl, e).scheduled
    ensures WorldInv(called) && called.ctl == FromThere(w.ctl, e) && called.history == w.history
  {
    called := Play(w, Act(e, 0));
    MoveKeepsInv(w, Act(e, 0));
    if !called.ctl.running {
      var begun := Play(called, Act(Microtask, 0));
      MoveKeepsInv(called, Act(Microtask, 0));
      called := begun;
    }
  }
}
