/**
 What a load of the panel asks for and shows, over every run: the resources of
 its section, a new request after a failure, and every reply of the latest load.
 */
module PanelLoads {
  import opened Wrappers
  import opened AdministrationResources
  import opened ResourceRuns
  import opened PanelRuns

  /* ---- A request that was answered is not waited for again ---- */

  // Registered for no resource, and never to be.
  ghost predicate Gone(d: Desk, r: nat) {
    && r < |d.requests|
    && forall key: Key :: key in d.cache.pending ==> d.cache.pending[key] != r && d.cache.pending[key] < |d.requests|
  }

  lemma {:induction false} BeginKeysLeavesGone(d: Desk, keys: seq<Key>, refetch: bool, now: nat, r: nat)
    requires Gone(d, r)
    ensures Gone(BeginKeys(d, keys, refetch, now).0, r)
  {
    if keys != [] {
      BeginKeysLeavesGone(d, keys[..|keys| - 1], refetch, now, r);
      var before := BeginKeys(d, keys[..|keys| - 1], refetch, now).0;
      BeginKeyLeavesGone(before, keys[|keys| - 1], refetch, now, r);
    }
  }

  lemma BeginKeyLeavesGone(d: Desk, key: Key, refetch: bool, now: nat, r: nat)
    requires Gone(d, r)
    ensures Gone(BeginKey(d, key, refetch, now).0, r)
  {}

  lemma StepLeavesGone(p: Panel, s: Step, r: nat)
    requires Gone(p.desk, r) && Possible(p, s)
    ensures Gone(Next(p, s).desk, r)
  {
    match s {
      case Open(section, permissions, refetch) =>
        BeginKeysLeavesGone(p.desk, KeysFor(section, permissions), refetch, p.clock, r);
      case Acknowledge(section, permissions) =>
        BeginKeysLeavesGone(Cleared(p.desk, p.clock), KeysFor(section, permissions), false, p.clock, r);
      case _ =>
    }
  }

  lemma {:induction false} RunLeavesGone(p: Panel, steps: seq<Step>, r: nat)
    requires Gone(p.desk, r) && Legal(p, steps)
    ensures Gone(Run(p, steps).desk, r)
    decreases |steps|
  {
    if steps != [] {
      StepLeavesGone(p, steps[0], r);
      RunLeavesGone(Next(p, steps[0]), steps[1..], r);
    }
  }

  lemma ResumeMakesGone(p: Panel, n: nat, key: Key)
    requires PanelInv(p) && Possible(p, Resume(n, key))
    ensures Gone(Next(p, Resume(n, key)).desk, p.loads[n].tasks[key].request)
  {
    var q, r := Next(p, Resume(n, key)), p.loads[n].tasks[key].request;
    assert LoadInv(p.desk.requests, p.loads[n]);
    forall other: Key | other in q.desk.cache.pending
      ensures q.desk.cache.pending[other] != r && q.desk.cache.pending[other] < |q.desk.requests|
    {
      assert KeyInv(p.desk, other);
    }
  }

  // Over every run: once a waiter has gone on with the reply to a request, good
  // or bad, that request is registered for no resource, whatever happens next.
  lemma {:induction false} AnsweredRequestIsGone(steps: seq<Step>, n: nat, key: Key, more: seq<Step>)
    requires Legal(EmptyPanel(), steps) && Possible(Run(EmptyPanel(), steps), Resume(n, key))
    requires Legal(Next(Run(EmptyPanel(), steps), Resume(n, key)), more)
    ensures var p := Run(EmptyPanel(), steps);
            var r := p.loads[n].tasks[key].request;
            var d := Run(Next(p, Resume(n, key)), more).desk;
            forall other | other in d.cache.pending :: d.cache.pending[other] != r
  {
    RunKeepsInv(EmptyPanel(), steps);
    var p := Run(EmptyPanel(), steps);
    ResumeMakesGone(p, n, key);
    RunLeavesGone(Next(p, Resume(n, key)), more, p.loads[n].tasks[key].request);
  }

  /* ---- After a failure ---- */

  lemma {:induction false} AsksWhenMissing(d: Desk, keys: seq<Key>, refetch: bool, now: nat, key: Key)
    requires key !in d.cache.values && key !in d.cache.pending
    ensures var (after, starts) := BeginKeys(d, keys, refetch, now);
            && d.requests <= after.requests
            && (key !in keys ==> key !in after.cache.values && key !in after.cache.pending)
            && (key in keys ==>
                  key in starts && AskedAnew(after.requests, |d.requests|, now, key, starts[key])
                  && key !in after.cache.values
                  && key in after.cache.pending && after.cache.pending[key] == starts[key].request)
    decreases |keys|
  {
    if keys != [] {
      var front, last := keys[..|keys| - 1], keys[|keys| - 1];
      AsksWhenMissing(d, front, refetch, now, key);
      assert keys == front + [last];
      LastKeyAsks(d, front, last, refetch, now, key);
    }
  }

  lemma LastKeyAsks(d: Desk, front: seq<Key>, last: Key, refetch: bool, now: nat, key: Key)
    requires
      var (before, starts) := BeginKeys(d, front, refetch, now);
      && d.requests <= before.requests
      && (key !in front ==> key !in before.cache.values && key !in before.cache.pending)
      && (key in front ==>
            key in starts && AskedAnew(before.requests, |d.requests|, now, key, starts[key])
            && key !in before.cache.values
            && key in before.cache.pending && before.cache.pending[key] == starts[key].request)
    ensures
      var (before, starts) := BeginKeys(d, front, refetch, now);
      var (after, start) := BeginKey(before, last, refetch, now);
      var grown := starts[last := start];
      && d.requests <= after.requests
      && (key != last && key !in front ==> key !in after.cache.values && key !in after.cache.pending)
      && (key == last || key in front ==>
            key in grown && AskedAnew(after.requests, |d.requests|, now, key, grown[key])
            && key !in after.cache.values
            && key in after.cache.pending && after.cache.pending[key] == grown[key].request)
  {}

  // The request this task waits for is the registered one, and it failed.
  predicate FailsRegistered(p: Panel, n: nat, key: Key)
    requires Possible(p, Resume(n, key))
  {
    var r := p.loads[n].tasks[key].request;
    key in p.desk.cache.pending && p.desk.cache.pending[key] == r && Failed(p.desk.requests[r])
  }

  // The load just opened waits for a request for this key that it made itself.
  predicate WaitsForItsOwn(before: Panel, after: Panel, key: Key) {
    var n := before.loadSequence + 1;
    && n in after.loads && key in after.loads[n].tasks && after.loads[n].tasks[key].Pending?
    && |before.desk.requests| <= after.loads[n].tasks[key].request < |after.desk.requests|
    && after.desk.requests[after.loads[n].tasks[key].request] == Request(key, before.clock, None)
  }

  lemma FailureLeavesNothing(p: Panel, n: nat, key: Key)
    requires PanelInv(p) && Possible(p, Resume(n, key)) && FailsRegistered(p, n, key)
    ensures var c := Next(p, Resume(n, key)).desk.cache; key !in c.values && key !in c.pending
  {
    assert KeyInv(p.desk, key);
  }

  lemma {:induction false} MissingIsAskedFor(
    p: Panel, key: Key, section: Section, permissions: set<Permission>, refetch: bool)
    requires key !in p.desk.cache.values && key !in p.desk.cache.pending
    requires Allowed(section, permissions) && Needs(section, permissions, key)
    ensures WaitsForItsOwn(p, OpenLoad(p, section, permissions, refetch), key)
  {
    NeedsAreKeys(section, permissions, key);
    AsksWhenMissing(p.desk, KeysFor(section, permissions), refetch, p.clock, key);
  }

  // Over every run: when a registered request fails, the next load of that
  // resource asks again.
  lemma {:induction false} FailureIsAskedAgain(
    steps: seq<Step>, n: nat, key: Key, section: Section, permissions: set<Permission>, refetch: bool)
    requires Legal(EmptyPanel(), steps) && Possible(Run(EmptyPanel(), steps), Resume(n, key))
    requires FailsRegistered(Run(EmptyPanel(), steps), n, key)
    requires Allowed(section, permissions) && Needs(section, permissions, key)
    ensures var q := Next(Run(EmptyPanel(), steps), Resume(n, key));
            WaitsForItsOwn(q, OpenLoad(q, section, permissions, refetch), key)
  {
    RunKeepsInv(EmptyPanel(), steps);
    FailureLeavesNothing(Run(EmptyPanel(), steps), n, key);
    MissingIsAskedFor(Next(Run(EmptyPanel(), steps), Resume(n, key)), key, section, permissions, refetch);
  }

  /* ---- What a section asks for ---- */

  predicate Allowed(section: Section, permissions: set<Permission>) {
    if section.Personnel? then PersonnelView in permissions else AdministrationView in permissions
  }

  // Which sections need a resource; products only with the catalog permission.
  predicate Needs(section: Section, permissions: set<Permission>, key: Key) {
    match key
    case People => section.Personnel?
    case Admin => !section.Personnel?
    case Tax => section.Taxes? || section.Stations?
    case Configuration => section.Tips?
    case Products => section.Stations? && CatalogView in permissions
  }

  lemma NeedsAreKeys(section: Section, permissions: set<Permission>, key: Key)
    ensures Needs(section, permissions, key) <==> key in KeysFor(section, permissions)
    ensures Allowed(section, permissions) <==> CanOpen(section, permissions)
  {}

  lemma {:induction false} StartsAreKeys(d: Desk, keys: seq<Key>, refetch: bool, now: nat)
    ensures forall key :: key in BeginKeys(d, keys, refetch, now).1 <==> key in keys
  {
    if keys != [] {
      StartsAreKeys(d, keys[..|keys| - 1], refetch, now);
      assert keys == keys[..|keys| - 1] + [keys[|keys| - 1]];
    }
  }

  // A load takes the next sequence number; with the permission it asks for
  // exactly the resources its section needs, without it for nothing.
  lemma {:induction false} LoadAsksForItsSection(
    p: Panel, section: Section, permissions: set<Permission>, refetch: bool)
    ensures
      var q := OpenLoad(p, section, permissions, refetch);
      var n := p.loadSequence + 1;
      && q.loadSequence == n && q.shown == p.shown
      && (Allowed(section, permissions) ==>
            && q.loads.Keys == p.loads.Keys + {n}
            && forall key: Key :: key in q.loads[n].tasks <==> Needs(section, permissions, key))
      && (!Allowed(section, permissions) ==> q.loads == p.loads && q.desk == p.desk)
  {
    StartsAreKeys(p.desk, KeysFor(section, permissions), refetch, p.clock);
    forall key: Key
      ensures Needs(section, permissions, key) <==> key in KeysFor(section, permissions)
    {
      NeedsAreKeys(section, permissions, key);
    }
    NeedsAreKeys(section, permissions, Admin);
  }

  /* ---- What the latest load shows ---- */

  // The request this task waited for was answered with a value.
  predicate Arrived(p: Panel, n: nat, key: Key)
    requires n in p.loads && key in p.loads[n].tasks
  {
    var r := p.loads[n].tasks[key].request;
    r < |p.desk.requests| && p.desk.requests[r].outcome.Some? && p.desk.requests[r].outcome.value.Ok?
  }

  // What was shown for the key before and is after load n has finished.
  predicate ShowsArrivals(p: Panel, q: Panel, n: nat, key: Key)
    requires n in p.loads
  {
    if n == p.loadSequence && key in p.loads[n].tasks && Arrived(p, n, key)
    then key in q.shown && p.desk.requests[p.loads[n].tasks[key].request].outcome == Some(Ok(q.shown[key]))
    else (key in q.shown <==> key in p.shown) && (key in q.shown ==> q.shown[key] == p.shown[key])
  }

  lemma FinishShows(p: Panel, n: nat, key: Key)
    requires Possible(p, Finish(n)) && LoadInv(p.desk.requests, p.loads[n])
    ensures ShowsArrivals(p, FinishLoad(p, n), n, key)
  {}

  // Over every run: a finished load that is the latest shows every reply that
  // arrived and keeps the rest; any other changes nothing that is shown.
  lemma {:induction false} LatestLoadIsShown(steps: seq<Step>, n: nat, key: Key)
    requires Legal(EmptyPanel(), steps) && Possible(Run(EmptyPanel(), steps), Finish(n))
    ensures var p := Run(EmptyPanel(), steps); ShowsArrivals(p, Next(p, Finish(n)), n, key)
  {
    RunKeepsInv(EmptyPanel(), steps);
    FinishShows(Run(EmptyPanel(), steps), n, key);
  }

  // No other step touches what is shown.
  lemma OnlyFinishShows(p: Panel, s: Step)
    requires Possible(p, s) && !s.Finish?
    ensures Next(p, s).shown == p.shown && Next(p, s).shownFrom == p.shownFrom
  {}
}
