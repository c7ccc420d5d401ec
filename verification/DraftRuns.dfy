/**
 Where everything in a draft record comes from: over every run, whether a draft
 is pending, and the step behind each field of its record.
 */
module DraftRuns {
  import opened Wrappers
  import opened AdministrationDrafts

  function After(steps: seq<Step>, i: nat): Drafts
    requires i <= |steps|
  {
    Run(Empty(), steps[..i])
  }

  predicate SavesKey(s: Step, key: string) { s == Saved(Some(key)) && key != "" }

  predicate ObservesKey(s: Step, key: string) { s.Observe? && s.key == key }

  /* ---- When a draft is pending ---- */

  // A save, or an observation whose text is the initial text of the record.
  predicate Ends(d: Drafts, s: Step, key: string) {
    || SavesKey(s, key)
    || (ObservesKey(s, key) && key in d.records && s.current.json == d.records[key].initial.json)
  }

  ghost predicate MarkedSince(steps: seq<Step>, i: nat, key: string) {
    && i < |steps| && steps[i] == Mark(key)
    && forall j: nat | i < j < |steps| :: !Ends(After(steps, j), steps[j], key)
  }

  lemma {:induction false} PendingStep(d: Drafts, s: Step, key: string)
    ensures key in Next(d, s).pending <==> s == Mark(key) || (key in d.pending && !Ends(d, s, key))
  {}

  lemma {:induction false} Prefixes(front: seq<Step>, s: Step)
    ensures forall i: nat | i <= |front| :: After(front + [s], i) == After(front, i)
    ensures forall i: nat | i < |front| :: (front + [s])[i] == front[i]
    ensures (front + [s])[|front|] == s && After(front, |front|) == Run(Empty(), front)
    ensures Run(Empty(), front + [s]) == Next(Run(Empty(), front), s)
  {
    var steps := front + [s];
    assert forall i: nat | i <= |front| :: steps[..i] == front[..i];
    assert front[..|front|] == front;
  }

  // Over every run: a draft is pending if and only if some mark of it has no
  // later save of it and no later observation of its initial text.
  lemma {:induction false} PendingExactly(steps: seq<Step>, key: string)
    ensures key in Run(Empty(), steps).pending <==> exists i: nat :: MarkedSince(steps, i, key)
  {
    if steps != [] {
      var n := |steps| - 1;
      var front, s := steps[..n], steps[n];
      assert steps == front + [s];
      Prefixes(front, s);
      PendingExactly(front, key);
      PendingStep(Run(Empty(), front), s, key);
      forall i: nat | i < n
        ensures MarkedSince(steps, i, key) <==> MarkedSince(front, i, key) && !Ends(After(front, n), s, key)
      {
        MarkedBefore(front, s, i, key);
      }
      assert MarkedSince(steps, n, key) <==> s == Mark(key);
      assert forall i: nat | MarkedSince(steps, i, key) && i != n :: MarkedSince(front, i, key);
      if i: nat :| MarkedSince(front, i, key) {
        assert MarkedSince(steps, i, key) <==> !Ends(After(front, n), s, key);
      }
    }
  }

  lemma {:induction false} MarkedBefore(front: seq<Step>, s: Step, i: nat, key: string)
    requires i < |front|
    ensures MarkedSince(front + [s], i, key) <==>
              MarkedSince(front, i, key) && !Ends(After(front, |front|), s, key)
  {
    Prefixes(front, s);
  }

  /* ---- The step behind each field ---- */

  datatype Part = SectionPart | RevisionPart | InitialPart | CurrentPart | SavingPart

  // An observation that a record starts from: its first, one while nothing is
  // pending, or one that ends the draft.
  predicate StartsFrom(d: Drafts, s: Step, key: string) {
    ObservesKey(s, key) && (key !in d.records || key !in d.pending || Ends(d, s, key))
  }

  predicate Sets(d: Drafts, s: Step, key: string, part: Part) {
    match part
    case SectionPart => ObservesKey(s, key) && key !in d.records
    case RevisionPart => StartsFrom(d, s, key) || (s.Rebase? && s.key == key && key in d.records)
    case InitialPart => StartsFrom(d, s, key) || (SavesKey(s, key) && key in d.records)
    case CurrentPart => ObservesKey(s, key)
    case SavingPart =>
      || (ObservesKey(s, key) && key !in d.records)
      || ((SavesKey(s, key) || (s.Saving? && s.key == key)) && key in d.records)
  }

  // The record has in that part what the step put there.
  predicate HasFrom(row: Row, before: Drafts, s: Step, key: string, part: Part)
    requires Sets(before, s, key, part)
  {
    match part
    case SectionPart => row.section == s.section
    case RevisionPart => row.baselineRevision == s.revision
    case InitialPart => row.initial == if s.Observe? then s.current else before.records[key].current
    case CurrentPart => row.current == s.current
    case SavingPart => row.saving == (s.Saving? && s.value)
  }

  predicate SamePart(a: Row, b: Row, part: Part) {
    match part
    case SectionPart => a.section == b.section
    case RevisionPart => a.baselineRevision == b.baselineRevision
    case InitialPart => a.initial == b.initial
    case CurrentPart => a.current == b.current
    case SavingPart => a.saving == b.saving
  }

  lemma {:induction false} PartStep(d: Drafts, s: Step, key: string, part: Part)
    requires key in Next(d, s).records
    ensures Sets(d, s, key, part) ==> HasFrom(Next(d, s).records[key], d, s, key, part)
    ensures !Sets(d, s, key, part) ==>
              key in d.records && SamePart(Next(d, s).records[key], d.records[key], part)
  {}

  ghost predicate SetLast(steps: seq<Step>, i: nat, key: string, part: Part) {
    && i < |steps| && Sets(After(steps, i), steps[i], key, part)
    && forall j: nat | i < j < |steps| :: !Sets(After(steps, j), steps[j], key, part)
  }

  // Over every run: each part of a record is what the last step that sets it
  // made it, and there is such a step.  So a record that is not pending starts
  // from its last observation, rebase or save.
  lemma {:induction false} PartComesFrom(steps: seq<Step>, key: string, part: Part) returns (i: nat)
    requires key in Run(Empty(), steps).records
    ensures SetLast(steps, i, key, part)
    ensures HasFrom(Run(Empty(), steps).records[key], After(steps, i), steps[i], key, part)
  {
    if steps == [] {
      assert false;
    } else {
      var n := |steps| - 1;
      var front, s := steps[..n], steps[n];
      assert steps == front + [s];
      Prefixes(front, s);
      var before := Run(Empty(), front);
      PartStep(before, s, key, part);
      if Sets(before, s, key, part) {
        i := n;
      } else {
        i := PartComesFrom(front, key, part);
        HasFromStays(before.records[key], Next(before, s).records[key], After(front, i), front[i], key, part);
      }
    }
  }

  lemma HasFromStays(a: Row, b: Row, before: Drafts, s: Step, key: string, part: Part)
    requires Sets(before, s, key, part) && HasFrom(a, before, s, key, part) && SamePart(a, b, part)
    ensures HasFrom(b, before, s, key, part)
  {}

  // A record is there exactly once its key has been observed.
  lemma {:induction false} RecordedExactly(steps: seq<Step>, key: string)
    ensures key in Run(Empty(), steps).records <==> exists i: nat :: i < |steps| && ObservesKey(steps[i], key)
  {
    if steps != [] {
      var n := |steps| - 1;
      var front := steps[..n];
      RecordedExactly(front, key);
      assert forall i: nat | i < n :: front[i] == steps[i];
      if i: nat :| i < n && ObservesKey(front[i], key) { assert ObservesKey(steps[i], key); }
    }
  }
}
