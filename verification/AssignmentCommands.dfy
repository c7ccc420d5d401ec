/**
 Command identities of assignment drafts: submitting the same intent again, as
 after an uncertain reply, reuses the identity; anything else gets a new one.
 Identities come from a source that never repeats, modelled as a counter.
 */
module AssignmentCommands {
  datatype Command = Command(intent: string, id: nat)

  datatype Commands = Commands(current: map<string, Command>, next: nat)

  predicate Repeats(c: Commands, draft: string, intent: string) {
    draft in c.current && c.current[draft].intent == intent
  }

  function Submitted(c: Commands, draft: string, intent: string): (Commands, nat) {
    if Repeats(c, draft, intent) then (c, c.current[draft].id)
    else (Commands(c.current[draft := Command(intent, c.next)], c.next + 1), c.next)
  }

  class AssignmentCommandTable {
    var current: map<string, Command>
    var next: nat

    function View(): Commands
      reads this
    {
      Commands(current, next)
    }

    constructor ()
      ensures View() == Commands(map[], 0)
    {
      current, next := map[], 0;
    }

    method CommandId(draft: string, intent: string) returns (id: nat)
      modifies this
      ensures (View(), id) == Submitted(old(View()), draft, intent)
    {
      if draft in current && current[draft].intent == intent { return current[draft].id; }
      id := next;
      next := next + 1;
      current := current[draft := Command(intent, id)];
    }

    method Acknowledge(draft: string)
      modifies this
      ensures View() == Commands(old(current) - {draft}, old(next))
    {
      current := current - {draft};
    }
  }

  /* ---- Whole runs ---- */

  datatype Event = Submit(draft: string, intent: string) | Acknowledge(draft: string)

  datatype Entry = Sent(draft: string, intent: string, id: nat) | Acked(draft: string)

  datatype Trace = Trace(commands: Commands, log: seq<Entry>)

  function Advance(t: Trace, e: Event): Trace {
    match e
    case Submit(draft, intent) =>
      var (commands, id) := Submitted(t.commands, draft, intent);
      Trace(commands, t.log + [Sent(draft, intent, id)])
    case Acknowledge(draft) =>
      Trace(t.commands.(current := t.commands.current - {draft}), t.log + [Acked(draft)])
  }

  function Run(events: seq<Event>): Trace {
    if events == [] then Trace(Commands(map[], 0), [])
    else Advance(Run(events[..|events| - 1]), events[|events| - 1])
  }

  // The draft was neither acknowledged nor submitted with another intent.
  predicate Leaves(e: Entry, draft: string, intent: string) {
    e.draft != draft || (e.Sent? && e.intent == intent)
  }

  ghost predicate Undisturbed(log: seq<Entry>, i: nat, j: nat, draft: string, intent: string) {
    forall k | i < k < j && k < |log| :: Leaves(log[k], draft, intent)
  }

  predicate Held(c: Commands, e: Entry) {
    e.Sent? && e.draft in c.current && c.current[e.draft] == Command(e.intent, e.id)
  }

  // The table holds exactly the submissions nothing has disturbed since, and an
  // identity in the table belongs to its own draft only.
  ghost predicate TableInv(t: Trace) {
    && (forall i | 0 <= i < |t.log| && t.log[i].Sent? ::
          && t.log[i].id < t.commands.next
          && (Held(t.commands, t.log[i]) <==> Undisturbed(t.log, i, |t.log|, t.log[i].draft, t.log[i].intent)))
    && (forall draft | draft in t.commands.current :: t.commands.current[draft].id < t.commands.next)
    && (forall d, f | d in t.commands.current && f in t.commands.current ::
          t.commands.current[d].id == t.commands.current[f].id ==> d == f)
    && (forall i, draft | 0 <= i < |t.log| && t.log[i].Sent? && draft in t.commands.current ::
          t.log[i].id == t.commands.current[draft].id ==> draft == t.log[i].draft && Held(t.commands, t.log[i]))
  }

  // Two submissions share an identity exactly when they are the same draft and
  // intent with nothing in between.
  ghost predicate SharesRightly(log: seq<Entry>, i: nat, j: nat)
    requires i < j < |log|
  {
    log[i].Sent? && log[j].Sent? ==>
      (log[i].id == log[j].id <==>
         && log[i].draft == log[j].draft && log[i].intent == log[j].intent
         && Undisturbed(log, i, j, log[i].draft, log[i].intent))
  }

  lemma UndisturbedGrows(log: seq<Entry>, e: Entry, i: nat, draft: string, intent: string)
    requires i < |log|
    ensures Undisturbed(log + [e], i, |log| + 1, draft, intent) <==>
              Undisturbed(log, i, |log|, draft, intent) && Leaves(e, draft, intent)
    ensures forall j: nat | j <= |log| ::
              Undisturbed(log + [e], i, j, draft, intent) <==> Undisturbed(log, i, j, draft, intent)
  {
    assert forall k | 0 <= k < |log| :: (log + [e])[k] == log[k];
    assert (log + [e])[|log|] == e;
  }

  lemma AdvanceKeepsTable(t: Trace, e: Event)
    requires TableInv(t)
    ensures TableInv(Advance(t, e))
  {
    var u := Advance(t, e);
    var n := |t.log|;
    forall i | 0 <= i < n && t.log[i].Sent?
      ensures u.log[i] == t.log[i]
      ensures Held(u.commands, u.log[i]) <==> Undisturbed(u.log, i, |u.log|, u.log[i].draft, u.log[i].intent)
    {
      UndisturbedGrows(t.log, u.log[n], i, t.log[i].draft, t.log[i].intent);
    }
  }

  lemma NewEntryShares(t: Trace, e: Event, i: nat)
    requires TableInv(t) && i < |t.log|
    ensures SharesRightly(Advance(t, e).log, i, |t.log|)
  {
    var u := Advance(t, e);
    UndisturbedGrows(t.log, u.log[|t.log|], i, t.log[i].draft, if t.log[i].Sent? then t.log[i].intent else "");
  }

  lemma OldEntriesShare(log: seq<Entry>, e: Entry, i: nat, j: nat)
    requires i < j < |log| && SharesRightly(log, i, j)
    ensures SharesRightly(log + [e], i, j)
  {
    UndisturbedGrows(log, e, i, log[i].draft, if log[i].Sent? then log[i].intent else "");
  }

  ghost predicate AllShareRightly(log: seq<Entry>) {
    forall i, j | 0 <= i < j < |log| :: SharesRightly(log, i, j)
  }

  lemma AdvanceSharesRightly(t: Trace, e: Event)
    requires TableInv(t) && AllShareRightly(t.log)
    ensures AllShareRightly(Advance(t, e).log)
  {
    var log := Advance(t, e).log;
    forall i, j | 0 <= i < j < |log|
      ensures SharesRightly(log, i, j)
    {
      if j == |t.log| {
        NewEntryShares(t, e, i);
      } else {
        OldEntriesShare(t.log, log[|t.log|], i, j);
      }
    }
  }

  // Over every run, one identity never stands for two different commands, and a
  // repeated submission never becomes a second command.
  lemma {:induction false} OneIdentityPerCommand(events: seq<Event>)
    ensures TableInv(Run(events)) && AllShareRightly(Run(events).log)
  {
    if events != [] {
      var front := events[..|events| - 1];
      OneIdentityPerCommand(front);
      AdvanceKeepsTable(Run(front), events[|events| - 1]);
      AdvanceSharesRightly(Run(front), events[|events| - 1]);
    }
  }
}
