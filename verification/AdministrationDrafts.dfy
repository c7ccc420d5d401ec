/**
 The draft store of the administration panel: what is being edited, against
 which server revision, and whether it still differs from it.
 */
module AdministrationDrafts {
  import opened Wrappers
  import opened AdministrationResources

  // A draft value: the object itself and the text JSON.stringify gives it.
  datatype Draft = Draft(identity: nat, json: string)

  datatype Row = Row(
    section: Section,
    baselineRevision: int,
    initial: Draft,
    current: Draft,
    dirty: bool,
    saving: bool,
    conflict: bool)

  datatype Drafts = Drafts(records: map<string, Row>, pending: set<string>)

  datatype Step =
    | Observe(key: string, section: Section, current: Draft, revision: int)
    | Mark(key: string)
    | Saved(savedKey: Option<string>)
    | Saving(key: string, value: bool)
    | Rebase(key: string, revision: int)
    | Conflict(key: string)

  function Empty(): Drafts { Drafts(map[], {}) }

  function With(d: Drafts, key: string, row: Row): Drafts { d.(records := d.records[key := row]) }

  function Observed(d: Drafts, key: string, section: Section, current: Draft, revision: int): Drafts {
    if key !in d.records then
      With(d, key, Row(section, revision, current, current, key in d.pending, false, false))
    else
      var row := d.records[key].(current := current);
      if key !in d.pending then With(d, key, row.(initial := current, baselineRevision := revision))
      else if row.initial.json == current.json then
        With(d.(pending := d.pending - {key}), key,
             row.(dirty := false, initial := current, baselineRevision := revision))
      else With(d, key, row)
  }

  function Next(d: Drafts, s: Step): Drafts {
    match s
    case Observe(key, section, current, revision) => Observed(d, key, section, current, revision)
    case Mark(key) =>
      var marked := d.(pending := d.pending + {key});
      if key in d.records then With(marked, key, d.records[key].(dirty := true)) else marked
    case Saved(None) => d
    case Saved(Some(key)) =>
      if key == "" then d
      else
        var done := d.(pending := d.pending - {key});
        if key !in d.records then done
        else
          var row := d.records[key];
          With(done, key, row.(dirty := false, saving := false, conflict := false, initial := row.current))
    case Saving(key, value) => if key in d.records then With(d, key, d.records[key].(saving := value)) else d
    case Rebase(key, revision) =>
      if key in d.records then With(d, key, d.records[key].(baselineRevision := revision, conflict := false)) else d
    case Conflict(key) => if key in d.records then With(d, key, d.records[key].(conflict := true)) else d
  }

  class DraftRecord {
    const section: Section
    var baselineRevision: int
    var initial: Draft
    var current: Draft
    var dirty: bool
    var saving: bool
    var conflict: bool

    constructor (section: Section, revision: int, current: Draft, dirty: bool)
      ensures View() == Row(section, revision, current, current, dirty, false, false)
    {
      this.section, baselineRevision := section, revision;
      this.initial, this.current := current, current;
      this.dirty, saving, conflict := dirty, false, false;
    }

    function View(): Row
      reads this
    {
      Row(section, baselineRevision, initial, current, dirty, saving, conflict)
    }
  }

  class AdministrationDraftStore {
    var records: map<string, DraftRecord>
    var pending: set<string>

    // Each key has a record of its own.
    ghost predicate Valid()
      reads this
    {
      forall k, l | k in records && l in records && k != l :: records[k] != records[l]
    }

    ghost function View(): Drafts
      reads this, records.Values
    {
      Drafts(map k | k in records :: records[k].View(), pending)
    }

    constructor ()
      ensures Valid() && View() == Empty() && records == map[]
    {
      records, pending := map[], {};
    }

    method Observe(key: string, section: Section, current: Draft, revision: int)
      requires Valid()
      modifies this, records.Values
      ensures Valid() && fresh(records.Values - old(records.Values))
      ensures View() == Next(old(View()), Step.Observe(key, section, current, revision))
    {
      if key in records {
        Reobserve(key, current, revision);
      } else {
        var added := new DraftRecord(section, revision, current, key in pending);
        records := records[key := added];
      }
    }

    method Reobserve(key: string, current: Draft, revision: int)
      requires Valid() && key in records
      modifies this`pending, records.Values
      ensures Valid()
      ensures View() == Observed(old(View()), key, old(records[key].section), current, revision)
    {
      var existing := records[key];
      existing.current := current;
      if key in pending && existing.initial.json == current.json {
        pending := pending - {key};
        existing.dirty := false;
      }
      if key !in pending {
        existing.initial := current;
        existing.baselineRevision := revision;
      }
      assert View().records == old(View()).records[key := existing.View()];
    }

    method Mark(key: string)
      requires Valid()
      modifies this`pending, records.Values
      ensures Valid() && View() == Next(old(View()), Step.Mark(key))
    {
      pending := pending + {key};
      if key in records { records[key].dirty := true; }
    }

    method Saved(key: Option<string>)
      requires Valid()
      modifies this`pending, records.Values
      ensures Valid() && View() == Next(old(View()), Step.Saved(key))
    {
      if key.None? || key.value == "" { return; }
      pending := pending - {key.value};
      if key.value in records {
        var row := records[key.value];
        row.dirty := false;
        row.saving := false;
        row.conflict := false;
        row.initial := row.current;
        assert View().records == old(View()).records[key.value := row.View()];
      }
    }

    method Saving(key: string, value: bool)
      requires Valid()
      modifies records.Values
      ensures Valid() && View() == Next(old(View()), Step.Saving(key, value))
    {
      if key in records { records[key].saving := value; }
    }

    method Rebase(key: string, revision: int)
      requires Valid()
      modifies records.Values
      ensures Valid() && View() == Next(old(View()), Step.Rebase(key, revision))
    {
      if key in records {
        var row := records[key];
        row.baselineRevision := revision;
        row.conflict := false;
      }
    }

    method Conflict(key: string)
      requires Valid()
      modifies records.Values
      ensures Valid() && View() == Next(old(View()), Step.Conflict(key))
    {
      if key in records { records[key].conflict := true; }
    }
  }

  /* ---- Whole runs ---- */

  function Run(d: Drafts, steps: seq<Step>): Drafts {
    if steps == [] then d else Next(Run(d, steps[..|steps| - 1]), steps[|steps| - 1])
  }

  // Dirty means pending, and a clean record has nothing unsaved in it.
  ghost predicate DraftsInv(d: Drafts) {
    forall key | key in d.records ::
      && (d.records[key].dirty <==> key in d.pending)
      && (!d.records[key].dirty ==> d.records[key].initial == d.records[key].current)
  }

  lemma StepKeepsInv(d: Drafts, s: Step)
    requires DraftsInv(d)
    ensures DraftsInv(Next(d, s))
  {}

  lemma {:induction false} DirtyMeansPending(steps: seq<Step>)
    ensures DraftsInv(Run(Empty(), steps))
  {
    if steps != [] {
      DirtyMeansPending(steps[..|steps| - 1]);
      StepKeepsInv(Run(Empty(), steps[..|steps| - 1]), steps[|steps| - 1]);
    }
  }

  // A conflict is over once the draft was rebased or saved.
  predicate Resolves(s: Step, key: string) {
    (s.Rebase? && s.key == key) || (s == Saved(Some(key)) && key != "")
  }

  // A conflict on a record that was there, and nothing since that ends it.
  ghost predicate Raised(steps: seq<Step>, i: nat, key: string) {
    && i < |steps| && steps[i] == Conflict(key) && key in Run(Empty(), steps[..i]).records
    && forall j | i < j < |steps| :: !Resolves(steps[j], key)
  }

  lemma {:induction false} RaisedBefore(front: seq<Step>, s: Step, i: nat, key: string)
    requires i < |front|
    ensures Raised(front + [s], i, key) <==> Raised(front, i, key) && !Resolves(s, key)
  {
    var steps := front + [s];
    assert steps[..i] == front[..i];
    assert forall j | 0 <= j < |front| :: steps[j] == front[j];
    assert steps[|front|] == s;
  }

  lemma {:induction false} StepMovesConflict(d: Drafts, s: Step, key: string)
    requires key in Next(d, s).records
    ensures Next(d, s).records[key].conflict <==>
              key in d.records && (s == Conflict(key) || (d.records[key].conflict && !Resolves(s, key)))
  {}

  // A record is in conflict exactly when a conflict was raised on it that
  // neither a rebase nor a save has ended since.
  lemma {:induction false} ConflictUntilResolved(steps: seq<Step>, key: string)
    requires key in Run(Empty(), steps).records
    ensures Run(Empty(), steps).records[key].conflict <==> exists i: nat :: Raised(steps, i, key)
  {
    if steps != [] {
      var front, s := steps[..|steps| - 1], steps[|steps| - 1];
      var before := Run(Empty(), front);
      assert steps == front + [s] && steps[..|front|] == front;
      StepMovesConflict(before, s, key);
      if key in before.records { ConflictUntilResolved(front, key); } else { NothingRaised(front, key); }
      forall i: nat | i < |front|
        ensures Raised(steps, i, key) <==> Raised(front, i, key) && !Resolves(s, key)
      {
        RaisedBefore(front, s, i, key);
      }
      assert Raised(steps, |front|, key) <==> s == Conflict(key) && key in before.records;
      assert forall i: nat | Raised(steps, i, key) && i != |front| :: Raised(front, i, key);
      if i: nat :| Raised(front, i, key) { assert Raised(steps, i, key) <==> !Resolves(s, key); }
    }
  }

  lemma {:induction false} RecordsStay(steps: seq<Step>, i: nat, key: string)
    requires i <= |steps| && key in Run(Empty(), steps[..i]).records
    ensures key in Run(Empty(), steps).records
  {
    if i < |steps| {
      assert steps[..|steps| - 1][..i] == steps[..i];
      RecordsStay(steps[..|steps| - 1], i, key);
    } else {
      assert steps[..i] == steps;
    }
  }

  lemma {:induction false} NothingRaised(steps: seq<Step>, key: string)
    requires key !in Run(Empty(), steps).records
    ensures forall i: nat :: !Raised(steps, i, key)
  {
    forall i: nat
      ensures !Raised(steps, i, key)
    {
      if Raised(steps, i, key) { RecordsStay(steps, i, key); }
    }
  }

  // What an edit was started from.
  function Base(d: Drafts, key: string): (int, Draft)
    requires key in d.records
  {
    (d.records[key].baselineRevision, d.records[key].initial)
  }

  lemma StepKeepsBase(d: Drafts, s: Step, key: string)
    requires key in d.records && key in d.pending
    ensures key in Next(d, s).records
    ensures key in Next(d, s).pending && s.Rebase? && s.key == key ==>
              Base(Next(d, s), key) == (s.revision, d.records[key].initial)
    ensures key in Next(d, s).pending && !(s.Rebase? && s.key == key) ==> Base(Next(d, s), key) == Base(d, key)
    ensures key !in Next(d, s).pending <==>
              || (s == Saved(Some(key)) && key != "")
              || (s.Observe? && s.key == key && s.current.json == d.records[key].initial.json)
  {}

  // The revision the last rebase of this key asked for, if any.
  function LastRebase(steps: seq<Step>, key: string, otherwise: int): int {
    if steps == [] then otherwise
    else
      var s := steps[|steps| - 1];
      if s.Rebase? && s.key == key then s.revision
      else LastRebase(steps[..|steps| - 1], key, otherwise)
  }

  ghost predicate StaysPending(d: Drafts, steps: seq<Step>, key: string) {
    forall i | 0 <= i <= |steps| :: key in Run(d, steps[..i]).pending
  }

  // While a draft stays pending, observations leave its starting point alone:
  // the base revision moves only by an explicit rebase, the initial value never.
  lemma {:induction false} PinnedDraft(d: Drafts, steps: seq<Step>, key: string)
    requires key in d.records && StaysPending(d, steps, key)
    ensures key in Run(d, steps).records
    ensures Base(Run(d, steps), key)
              == (LastRebase(steps, key, d.records[key].baselineRevision), d.records[key].initial)
  {
    if steps != [] {
      var front := steps[..|steps| - 1];
      assert forall i | 0 <= i <= |front| :: front[..i] == steps[..i];
      assert steps[..|steps|] == steps;
      PinnedDraft(d, front, key);
      StepKeepsBase(Run(d, front), steps[|steps| - 1], key);
    }
  }
}
