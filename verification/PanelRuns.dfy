/**
 Every interleaving of loads, replies, navigation and acknowledged commands in
 the administration panel.  Each step happens at its own time; a request and an
 acknowledgement carry the time of their step.
 */
module PanelRuns {
  import opened Wrappers
  import opened AdministrationResources
  import opened AdministrationController
  import opened ResourceRuns

  datatype Task = Pending(request: nat) | Done(request: nat, outcome: Outcome)

  // A load under way: its resources, and how recent their requests must be.
  datatype Load = Load(tasks: map<Key, Task>, floor: map<Key, nat>)

  datatype Entry =
    | Acknowledged(at: nat)
    | Opened(sequence: nat)
    | Left(sequence: nat)
    | Installed(sequence: nat, from: map<Key, nat>)

  datatype Panel = Panel(
    clock: nat,
    desk: Desk,
    loads: map<nat, Load>,
    loadSequence: nat,
    lastAck: nat,
    shown: map<Key, Payload>,
    shownFrom: map<Key, nat>,
    log: seq<Entry>)

  datatype Step =
    | Open(section: Section, permissions: set<Permission>, refetch: bool)
    | Leave
    | Reply(request: nat, outcome: Outcome)
    | Resume(sequence: nat, key: Key)
    | Finish(sequence: nat)
    | Acknowledge(section: Section, permissions: set<Permission>)

  function EmptyPanel(): Panel { Panel(1, EmptyDesk(), map[], 0, 0, map[], map[], []) }

  predicate Possible(p: Panel, s: Step) {
    match s
    case Open(_, _, _) | Leave | Acknowledge(_, _) => true
    case Reply(r, _) => r < |p.desk.requests| && p.desk.requests[r].outcome.None?
    case Resume(n, key) =>
      && n in p.loads && key in p.loads[n].tasks && p.loads[n].tasks[key].Pending?
      && var r := p.loads[n].tasks[key].request; r < |p.desk.requests| && p.desk.requests[r].outcome.Some?
    case Finish(n) => n in p.loads && forall key | key in p.loads[n].tasks :: p.loads[n].tasks[key].Done?
  }

  function Effect(p: Panel, s: Step): Panel
    requires Possible(p, s)
  {
    match s
    case Open(section, permissions, refetch) => OpenLoad(p, section, permissions, refetch)
    case Leave => p.(loadSequence := p.loadSequence + 1, log := p.log + [Left(p.loadSequence + 1)])
    case Reply(r, outcome) => p.(desk := Settled(p.desk, r, outcome))
    case Resume(n, key) => ResumeTask(p, n, key)
    case Finish(n) => FinishLoad(p, n)
    case Acknowledge(section, permissions) =>
      OpenLoad(p.(desk := Cleared(p.desk, p.clock), lastAck := p.clock, log := p.log + [Acknowledged(p.clock)]),
               section, permissions, false)
  }

  function Next(p: Panel, s: Step): Panel
    requires Possible(p, s)
  {
    var q := Effect(p, s);
    q.(clock := q.clock + 1)
  }

  // A value found in the cache is an answer already.
  function TaskFor(d: Desk, key: Key, start: AdministrationResources.Start): Task {
    match start
    case Hit(v) => Done(if key in d.origin then d.origin[key] else 0, Ok(v))
    case Waiting(r) => Pending(r)
  }

  function OpenLoad(p: Panel, section: Section, permissions: set<Permission>, refetch: bool): Panel {
    var n := p.loadSequence + 1;
    var q := p.(loadSequence := n, log := p.log + [Opened(n)]);
    if !CanOpen(section, permissions) then q
    else
      var (desk, starts) := BeginKeys(p.desk, KeysFor(section, permissions), refetch, p.clock);
      var load := Load(map k | k in starts :: TaskFor(desk, k, starts[k]), map k | k in starts :: PurgedAt(desk, k));
      q.(desk := desk, loads := p.loads[n := load])
  }

  function ResumeTask(p: Panel, n: nat, key: Key): Panel
    requires Possible(p, Resume(n, key))
  {
    var load := p.loads[n];
    var r := load.tasks[key].request;
    var outcome := p.desk.requests[r].outcome.value;
    p.(desk := ResumedKey(p.desk, key, r, outcome),
       loads := p.loads[n := load.(tasks := load.tasks[key := Done(r, outcome)])])
  }

  function Outcomes(load: Load): map<Key, Outcome> {
    map k | k in load.tasks && load.tasks[k].Done? :: load.tasks[k].outcome
  }

  function Sources(load: Load): map<Key, nat> {
    map k | k in Ready(Outcomes(load)) :: load.tasks[k].request
  }

  function FinishLoad(p: Panel, n: nat): Panel
    requires Possible(p, Finish(n))
  {
    var q := p.(loads := p.loads - {n});
    if n != p.loadSequence then q
    else
      q.(shown := p.shown + Ready(Outcomes(p.loads[n])),
         shownFrom := p.shownFrom + Sources(p.loads[n]),
         log := p.log + [Installed(n, Sources(p.loads[n]))])
  }

  predicate Legal(p: Panel, steps: seq<Step>)
    decreases |steps|
  {
    steps == [] || (Possible(p, steps[0]) && Legal(Next(p, steps[0]), steps[1..]))
  }

  function Run(p: Panel, steps: seq<Step>): Panel
    requires Legal(p, steps)
    decreases |steps|
  {
    if steps == [] then p else Run(Next(p, steps[0]), steps[1..])
  }

  /* ---- What every step keeps ---- */

  // Every request was made before `now`, and an acknowledgement threw everything away.
  ghost predicate KeyTimes(d: Desk, lastAck: nat, key: Key, now: nat) {
    Before(d, key, now) && lastAck <= PurgedAt(d, key) <= now
  }

  ghost predicate TimesInv(p: Panel, now: nat) {
    forall key: Key :: KeyTimes(p.desk, p.lastAck, key, now)
  }

  predicate TaskInv(requests: seq<Request>, key: Key, floor: nat, task: Task) {
    && task.request < |requests|
    && requests[task.request].key == key
    && floor <= requests[task.request].issuedAt
    && (task.Done? ==> requests[task.request].outcome == Some(task.outcome))
  }

  ghost predicate LoadInv(requests: seq<Request>, load: Load) {
    forall key | key in load.tasks :: key in load.floor && TaskInv(requests, key, load.floor[key], load.tasks[key])
  }

  ghost predicate LoadsInv(p: Panel) {
    forall n | n in p.loads :: n <= p.loadSequence && LoadInv(p.desk.requests, p.loads[n])
  }

  // The latest load began after the latest acknowledgement, with nothing older.
  ghost predicate LatestInv(p: Panel) {
    p.loadSequence in p.loads ==>
      forall key | key in p.loads[p.loadSequence].floor :: p.lastAck <= p.loads[p.loadSequence].floor[key]
  }

  // What an entry of the log says about the state it left behind.
  ghost predicate EntryInv(p: Panel, e: Entry) {
    match e
    case Acknowledged(at) => at <= p.lastAck
    case Opened(n) => n <= p.loadSequence
    case Left(n) => n <= p.loadSequence && n !in p.loads
    case Installed(n, from) =>
      && n <= p.loadSequence && n !in p.loads
      && forall key | key in from ::
           from[key] < |p.desk.requests| && p.desk.requests[from[key]].key == key
  }

  // Two entries in order: what is installed was asked for after every earlier
  // acknowledgement, by a load at least as late as every load opened before,
  // opened after the panel was last left, and later than every load installed
  // before.
  ghost predicate PairInv(requests: seq<Request>, first: Entry, second: Entry) {
    second.Installed? ==>
      match first
      case Acknowledged(at) =>
        forall key | key in second.from ::
          second.from[key] < |requests| && at <= requests[second.from[key]].issuedAt
      case Opened(n) => n <= second.sequence
      case Left(n) => n < second.sequence
      case Installed(n, _) => n < second.sequence
  }

  ghost predicate LogInv(p: Panel) {
    && (forall i | 0 <= i < |p.log| :: EntryInv(p, p.log[i]))
    && (forall i, j | 0 <= i < j < |p.log| :: PairInv(p.desk.requests, p.log[i], p.log[j]))
  }

  // Each value on show is the reply to the request it is said to come from.
  ghost predicate ShownInv(p: Panel) {
    && p.shown.Keys == p.shownFrom.Keys
    && forall key | key in p.shown ::
         && p.shownFrom[key] < |p.desk.requests|
         && p.desk.requests[p.shownFrom[key]].key == key
         && p.desk.requests[p.shownFrom[key]].outcome == Some(Ok(p.shown[key]))
  }

  ghost predicate PanelInv(p: Panel) {
    DeskInv(p.desk) && TimesInv(p, p.clock) && LoadsInv(p) && LatestInv(p) && LogInv(p) && ShownInv(p)
  }

  // Sequence numbers and acknowledgements advance; no finished load comes back.
  ghost predicate Later(p: Panel, q: Panel) {
    && p.loadSequence <= q.loadSequence && p.lastAck <= q.lastAck
    && forall n | n in q.loads :: n in p.loads || p.loadSequence < n
  }

  // Requests only gain: nothing said about them before becomes false.
  lemma ExtendsKeepsHistory(p: Panel, q: Panel)
    requires Extends(p.desk.requests, q.desk.requests)
    requires p.log == q.log && p.shown == q.shown && p.shownFrom == q.shownFrom
    requires Later(p, q)
    requires LogInv(p) && ShownInv(p)
    ensures LogInv(q) && ShownInv(q)
  {
    forall i | 0 <= i < |p.log|
      ensures EntryInv(q, q.log[i])
    {
      assert EntryInv(p, p.log[i]);
    }
    forall i, j | 0 <= i < j < |p.log|
      ensures PairInv(q.desk.requests, q.log[i], q.log[j])
    {
      assert PairInv(p.desk.requests, p.log[i], p.log[j]);
    }
  }

  lemma ExtendsKeepsLoads(a: seq<Request>, b: seq<Request>, load: Load)
    requires Extends(a, b) && LoadInv(a, load)
    ensures LoadInv(b, load)
  {}

  // A new entry at the end of the log.
  lemma LogGrows(p: Panel, q: Panel, e: Entry)
    requires LogInv(p) && q.log == p.log + [e] && q.desk.requests == p.desk.requests
    requires Later(p, q)
    requires EntryInv(q, e)
    requires forall i | 0 <= i < |p.log| :: PairInv(p.desk.requests, p.log[i], e)
    ensures LogInv(q)
  {
    forall i | 0 <= i < |p.log|
      ensures EntryInv(q, q.log[i])
    {
      assert EntryInv(p, p.log[i]);
    }
  }

  // A load that was just opened.
  lemma OpenedLoadInv(d: Desk, load: Load, starts: map<Key, AdministrationResources.Start>)
    requires DeskInv(d)
    requires forall key | key in starts :: StartInv(d, key, starts[key])
    requires load.tasks == map k | k in starts :: TaskFor(d, k, starts[k])
    requires load.floor == map k | k in starts :: PurgedAt(d, k)
    ensures LoadInv(d.requests, load)
  {
    forall key | key in load.tasks
      ensures TaskInv(d.requests, key, load.floor[key], load.tasks[key])
    {
      assert KeyInv(d, key) && StartInv(d, key, starts[key]);
    }
  }

  lemma OpenKeepsLog(p: Panel, q: Panel, n: nat)
    requires LogInv(p) && ShownInv(p) && Extends(p.desk.requests, q.desk.requests)
    requires q.log == p.log + [Opened(n)] && n == p.loadSequence + 1 == q.loadSequence
    requires q.shown == p.shown && q.shownFrom == p.shownFrom && Later(p, q)
    ensures LogInv(q) && ShownInv(q)
  {
    var r := q.(log := p.log);
    ExtendsKeepsHistory(p, r);
    LogGrows(r, q, Opened(n));
  }

  lemma OpenKeepsInv(p: Panel, section: Section, permissions: set<Permission>, refetch: bool)
    requires DeskInv(p.desk) && TimesInv(p, p.clock) && LoadsInv(p) && LogInv(p) && ShownInv(p)
    ensures var q := OpenLoad(p, section, permissions, refetch);
            DeskInv(q.desk) && TimesInv(q, q.clock + 1) && LoadsInv(q) && LatestInv(q) && LogInv(q) && ShownInv(q)
  {
    var q := OpenLoad(p, section, permissions, refetch);
    if CanOpen(section, permissions) {
      OpenDesk(p, KeysFor(section, permissions), refetch);
      var (desk, starts) := BeginKeys(p.desk, KeysFor(section, permissions), refetch, p.clock);
      OpenedLoadInv(desk, q.loads[q.loadSequence], starts);
      forall n | n in p.loads
        ensures n <= q.loadSequence && LoadInv(desk.requests, p.loads[n])
      {
        ExtendsKeepsLoads(p.desk.requests, desk.requests, p.loads[n]);
      }
    } else {
      TimePasses(q, q.clock, q.clock + 1);
    }
    OpenKeepsLog(p, q, q.loadSequence);
  }

  lemma OpenDesk(p: Panel, keys: seq<Key>, refetch: bool)
    requires DeskInv(p.desk) && TimesInv(p, p.clock)
    requires forall i, j | 0 <= i < j < |keys| :: keys[i] != keys[j]
    ensures var (desk, starts) := BeginKeys(p.desk, keys, refetch, p.clock);
            && DeskInv(desk) && Extends(p.desk.requests, desk.requests)
            && TimesInv(p.(desk := desk), p.clock + 1)
            && (forall key | key in starts :: StartInv(desk, key, starts[key]) && p.lastAck <= PurgedAt(desk, key))
  {
    BeforeEveryKey(p);
    BeginKeysKeepsInv(p.desk, keys, refetch, p.clock);
    var (desk, starts) := BeginKeys(p.desk, keys, refetch, p.clock);
    forall key: Key
      ensures KeyInv(desk, key)
      ensures key in starts ==> StartInv(desk, key, starts[key])
    {
      assert KeyOpened(p.desk, keys, refetch, p.clock, desk, starts, key);
    }
    var later := p.clock + 1;
    forall key: Key
      ensures KeyTimes(desk, p.lastAck, key, later)
    {
      assert KeyOpened(p.desk, keys, refetch, p.clock, desk, starts, key);
      assert KeyTimes(p.desk, p.lastAck, key, p.clock);
    }
    forall key | key in starts
      ensures p.lastAck <= PurgedAt(desk, key)
    {
      assert KeyTimes(desk, p.lastAck, key, later);
    }
  }

  lemma BeforeEveryKey(p: Panel)
    requires TimesInv(p, p.clock)
    ensures forall key: Key :: Before(p.desk, key, p.clock) && PurgedAt(p.desk, key) <= p.clock
  {
    forall key: Key
      ensures Before(p.desk, key, p.clock) && PurgedAt(p.desk, key) <= p.clock
    {
      assert KeyTimes(p.desk, p.lastAck, key, p.clock);
    }
  }

  lemma TimePasses(p: Panel, now: nat, later: nat)
    requires TimesInv(p, now) && now <= later
    ensures TimesInv(p, later)
  {
    forall key: Key
      ensures KeyTimes(p.desk, p.lastAck, key, later)
    {
      assert KeyTimes(p.desk, p.lastAck, key, now);
    }
  }

  lemma AcknowledgeKeepsInv(p: Panel, section: Section, permissions: set<Permission>)
    requires PanelInv(p)
    ensures var q := Effect(p, Acknowledge(section, permissions));
            DeskInv(q.desk) && TimesInv(q, q.clock + 1) && LoadsInv(q) && LatestInv(q) && LogInv(q) && ShownInv(q)
  {
    var r := p.(desk := Cleared(p.desk, p.clock), lastAck := p.clock, log := p.log + [Acknowledged(p.clock)]);
    BeforeEveryKey(p);
    ClearedKeepsInv(p.desk, p.clock);
    assert KeyTimes(p.desk, p.lastAck, Admin, p.clock);
    LogGrows(p, r, Acknowledged(p.clock));
    forall key: Key
      ensures KeyTimes(r.desk, r.lastAck, key, p.clock)
    {
      assert KeyTimes(p.desk, p.lastAck, key, p.clock);
    }
    OpenKeepsInv(r, section, permissions, false);
  }

  lemma ReplyKeepsInv(p: Panel, request: nat, outcome: Outcome)
    requires PanelInv(p) && Possible(p, Reply(request, outcome))
    ensures var q := Effect(p, Reply(request, outcome)); PanelInv(q)
  {
    var q := Effect(p, Reply(request, outcome));
    SettledKeepsInv(p.desk, request, outcome);
    forall n | n in p.loads
      ensures LoadInv(q.desk.requests, p.loads[n])
    {
      ExtendsKeepsLoads(p.desk.requests, q.desk.requests, p.loads[n]);
    }
    forall key: Key
      ensures KeyTimes(q.desk, q.lastAck, key, q.clock)
    {
      assert KeyTimes(p.desk, p.lastAck, key, p.clock);
    }
    ExtendsKeepsHistory(p, q);
  }

  lemma ResumeKeepsInv(p: Panel, n: nat, key: Key)
    requires PanelInv(p) && Possible(p, Resume(n, key))
    ensures PanelInv(Effect(p, Resume(n, key)))
  {
    var q := Effect(p, Resume(n, key));
    var r := p.loads[n].tasks[key].request;
    ResumedKeepsInv(p.desk, key, r, p.desk.requests[r].outcome.value);
    assert LoadInv(p.desk.requests, p.loads[n]);
    forall m | m in q.loads
      ensures LoadInv(q.desk.requests, q.loads[m])
    {
      assert LoadInv(p.desk.requests, p.loads[m]);
    }
    forall k: Key
      ensures KeyTimes(q.desk, q.lastAck, k, q.clock)
    {
      assert KeyTimes(p.desk, p.lastAck, k, p.clock);
    }
    ExtendsKeepsHistory(p, q);
  }

  // The latest load installs replies to requests made after the latest acknowledgement.
  lemma FinishKeepsInv(p: Panel, n: nat)
    requires PanelInv(p) && Possible(p, Finish(n))
    ensures PanelInv(Effect(p, Finish(n)))
  {
    var q := Effect(p, Finish(n));
    var load := p.loads[n];
    assert LoadInv(p.desk.requests, load);
    assert TimesInv(q, q.clock) && LoadsInv(q) && LatestInv(q);
    if n == p.loadSequence {
      InstallKeepsLog(p, q, Installed(n, Sources(load)), load);
      InstallKeepsShown(p, q, load);
    } else {
      ExtendsKeepsHistory(p, q);
    }
  }

  lemma InstallKeepsLog(p: Panel, q: Panel, e: Entry, load: Load)
    requires LogInv(p) && p.loadSequence in p.loads && LoadInv(p.desk.requests, load)
    requires forall key | key in load.tasks :: key in load.floor && p.lastAck <= load.floor[key]
    requires e == Installed(p.loadSequence, Sources(load))
    requires q.log == p.log + [e] && q.desk == p.desk && q.loads == p.loads - {p.loadSequence} && Later(p, q)
    requires q.loadSequence == p.loadSequence
    ensures LogInv(q)
  {
    forall i | 0 <= i < |p.log|
      ensures PairInv(p.desk.requests, p.log[i], e)
    {
      assert EntryInv(p, p.log[i]);
    }
    LogGrows(p, q, e);
  }

  lemma InstallKeepsShown(p: Panel, q: Panel, load: Load)
    requires ShownInv(p) && LoadInv(p.desk.requests, load) && q.desk == p.desk
    requires q.shown == p.shown + Ready(Outcomes(load)) && q.shownFrom == p.shownFrom + Sources(load)
    ensures ShownInv(q)
  {}

  lemma LeaveKeepsInv(p: Panel)
    requires PanelInv(p)
    ensures PanelInv(Effect(p, Leave))
  {
    LogGrows(p, Effect(p, Leave), Left(p.loadSequence + 1));
  }

  lemma StepKeepsInv(p: Panel, s: Step)
    requires PanelInv(p) && Possible(p, s)
    ensures PanelInv(Next(p, s))
  {
    match s {
      case Open(section, permissions, refetch) => OpenKeepsInv(p, section, permissions, refetch);
      case Leave => LeaveKeepsInv(p);
      case Reply(r, outcome) => ReplyKeepsInv(p, r, outcome);
      case Resume(n, key) => ResumeKeepsInv(p, n, key);
      case Finish(n) => FinishKeepsInv(p, n);
      case Acknowledge(section, permissions) => AcknowledgeKeepsInv(p, section, permissions);
    }
    var q := Effect(p, s);
    if !s.Open? && !s.Acknowledge? { TimePasses(q, q.clock, q.clock + 1); }
    TickKeepsInv(q);
  }

  lemma TickKeepsInv(q: Panel)
    requires DeskInv(q.desk) && TimesInv(q, q.clock + 1) && LoadsInv(q) && LatestInv(q) && LogInv(q) && ShownInv(q)
    ensures PanelInv(q.(clock := q.clock + 1))
  {
    var r := q.(clock := q.clock + 1);
    forall i | 0 <= i < |r.log|
      ensures EntryInv(r, r.log[i])
    {
      assert EntryInv(q, q.log[i]);
    }
  }

  lemma {:induction false} RunKeepsInv(p: Panel, steps: seq<Step>)
    requires PanelInv(p) && Legal(p, steps)
    ensures PanelInv(Run(p, steps))
    decreases |steps|
  {
    if steps != [] {
      StepKeepsInv(p, steps[0]);
      RunKeepsInv(Next(p, steps[0]), steps[1..]);
    }
  }

  /* ---- Results over every run ---- */

  // Whatever order replies arrive in, no reply asked for before an
  // acknowledgement is installed after it, and loads install in their own order.
  lemma PostAcknowledgementReadsOnly(steps: seq<Step>)
    requires Legal(EmptyPanel(), steps)
    ensures var p := Run(EmptyPanel(), steps);
            && (forall i, j | 0 <= i < j < |p.log| :: PairInv(p.desk.requests, p.log[i], p.log[j]))
            && ShownInv(p)
  {
    RunKeepsInv(EmptyPanel(), steps);
  }

  // A cached value is a successful reply to a request made since the resource
  // was last thrown away; failures are never cached; one request at a time.
  lemma NoStaleCacheWrite(steps: seq<Step>, key: Key)
    requires Legal(EmptyPanel(), steps)
    ensures KeyInv(Run(EmptyPanel(), steps).desk, key)
    ensures var d := Run(EmptyPanel(), steps).desk;
            forall r: nat, s: nat
              | Current(d, key, r) && Current(d, key, s) && !Failed(d.requests[r]) && !Failed(d.requests[s]) ::
              r == s
  {
    RunKeepsInv(EmptyPanel(), steps);
    var d := Run(EmptyPanel(), steps).desk;
    forall r: nat, s: nat | Current(d, key, r) && Current(d, key, s) && !Failed(d.requests[r]) && !Failed(d.requests[s])
      ensures r == s
    {
      OneRequestAlive(d, key, r, s);
    }
  }

  // A load that asks to fetch again waits, for each of its resources, for a
  // request that did not exist before and that it made itself.
  lemma RefetchReadsAnew(steps: seq<Step>, section: Section, permissions: set<Permission>)
    requires Legal(EmptyPanel(), steps) && CanOpen(section, permissions)
    ensures var p := Run(EmptyPanel(), steps);
            var q := OpenLoad(p, section, permissions, true);
            var load := q.loads[p.loadSequence + 1];
            && (forall key :: key in load.tasks <==> key in KeysFor(section, permissions))
            && (forall key | key in load.tasks ::
                  && key in load.floor && load.floor[key] == p.clock && load.tasks[key].Pending?
                  && |p.desk.requests| <= load.tasks[key].request < |q.desk.requests|
                  && q.desk.requests[load.tasks[key].request] == Request(key, p.clock, None))
  {
    RunKeepsInv(EmptyPanel(), steps);
    RefetchOpens(Run(EmptyPanel(), steps), KeysFor(section, permissions));
    RefetchAsksAnew(Run(EmptyPanel(), steps).desk, KeysFor(section, permissions), Run(EmptyPanel(), steps).clock);
  }

  lemma RefetchOpens(p: Panel, keys: seq<Key>)
    requires DeskInv(p.desk) && TimesInv(p, p.clock)
    requires forall i, j | 0 <= i < j < |keys| :: keys[i] != keys[j]
    ensures var (desk, starts) := BeginKeys(p.desk, keys, true, p.clock);
            && (forall key :: key in starts <==> key in keys)
            && (forall key | key in starts :: PurgedAt(desk, key) == p.clock)
  {
    BeforeEveryKey(p);
    BeginKeysKeepsInv(p.desk, keys, true, p.clock);
    var (desk, starts) := BeginKeys(p.desk, keys, true, p.clock);
    assert forall key: Key :: KeyOpened(p.desk, keys, true, p.clock, desk, starts, key);
  }

  // The start waits for a request made at `now` for this key, from `first` on.
  predicate AskedAnew(requests: seq<Request>, first: nat, now: nat, key: Key, start: AdministrationResources.Start) {
    && start.Waiting? && first <= start.request < |requests|
    && requests[start.request] == Request(key, now, None)
  }

  lemma {:induction false} RefetchAsksAnew(d: Desk, keys: seq<Key>, now: nat)
    ensures var (after, starts) := BeginKeys(d, keys, true, now);
            && d.requests <= after.requests
            && forall key | key in starts :: AskedAnew(after.requests, |d.requests|, now, key, starts[key])
  {
    if keys != [] {
      RefetchAsksAnew(d, keys[..|keys| - 1], now);
    }
  }
}
