/** The quick-cash input: denomination taps stack up on a text field and can be undone. */
module CashTender {
  import opened Wrappers
  import opened Rounding
  import opened MoneyText

  datatype CashInput = CashInput(value: string, quickHistory: seq<string>, quickInputStarted: bool)

  function CreateExact(exactMinorUnits: int): CashInput {
    CashInput(PrintMoney(exactMinorUnits), [], false)
  }

  function SetManual(value: string): CashInput {
    CashInput(value, [], false)
  }

  // Text that does not parse counts as zero.
  function CurrentAmount(value: string): nat {
    match ParseMoney(value) case Some(n) => n case None => 0
  }

  function ApplyDenomination(state: CashInput, denomination: nat): CashInput {
    Tapped(state, NextAmount(state, denomination))
  }

  // The first tap replaces what was there; the following ones add up.
  function NextAmount(state: CashInput, denomination: nat): nat {
    if state.quickInputStarted then CurrentAmount(state.value) + denomination else denomination
  }

  function Tapped(state: CashInput, next: nat): CashInput {
    CashInput(PrintMoney(next), state.quickHistory + [state.value], true)
  }

  function UndoDenomination(state: CashInput): CashInput {
    if state.quickHistory == [] then state
    else
      var history := state.quickHistory[..|state.quickHistory| - 1];
      CashInput(state.quickHistory[|state.quickHistory| - 1], history, history != [])
  }

  datatype Tap = Denomination(minorUnits: nat) | Undo

  function Replay(start: CashInput, taps: seq<Tap>): CashInput {
    if taps == [] then start
    else
      var before := Replay(start, taps[..|taps| - 1]);
      match taps[|taps| - 1]
      case Denomination(d) => ApplyDenomination(before, d)
      case Undo => UndoDenomination(before)
  }

  /* ---- The reference: a stack of the taps not undone ---- */

  function Remaining(taps: seq<Tap>): seq<nat> {
    if taps == [] then []
    else
      var before := Remaining(taps[..|taps| - 1]);
      match taps[|taps| - 1]
      case Denomination(d) => before + [d]
      case Undo => if before == [] then [] else before[..|before| - 1]
  }

  function Sum(s: seq<nat>): nat {
    if s == [] then 0 else Sum(s[..|s| - 1]) + s[|s| - 1]
  }

  // The total the field holds: a total over the bound no longer parses, so the
  // next tap starts again from zero.
  function Shown(stack: seq<nat>): nat {
    if stack == [] then 0
    else
      var before := Shown(stack[..|stack| - 1]);
      (if before <= MAX_SAFE_INTEGER then before else 0) + stack[|stack| - 1]
  }

  function TextOf(start: string, stack: seq<nat>): string {
    if stack == [] then start else PrintMoney(Shown(stack))
  }

  function History(start: string, stack: seq<nat>): seq<string> {
    if stack == [] then []
    else
      var before := stack[..|stack| - 1];
      History(start, before) + [TextOf(start, before)]
  }

  // The whole state, as a function of the original text and the remaining taps.
  function Expected(start: string, stack: seq<nat>): CashInput {
    CashInput(TextOf(start, stack), History(start, stack), stack != [])
  }

  lemma {:induction false} HistoryLength(start: string, stack: seq<nat>)
    ensures |History(start, stack)| == |stack|
  {
    if stack != [] {
      HistoryLength(start, stack[..|stack| - 1]);
    }
  }

  lemma {:induction false} NextTotal(start: string, stack: seq<nat>, d: nat)
    ensures NextAmount(Expected(start, stack), d) == Shown(stack + [d])
  {
    assert (stack + [d])[..|stack|] == stack;
    PrintThenParse(Shown(stack));
  }

  lemma {:induction false} NextHistory(start: string, stack: seq<nat>, d: nat)
    ensures History(start, stack + [d]) == History(start, stack) + [TextOf(start, stack)]
  {
    assert (stack + [d])[..|stack|] == stack;
  }

  lemma {:induction false} NextState(start: string, stack: seq<nat>, d: nat)
    ensures Tapped(Expected(start, stack), Shown(stack + [d])) == Expected(start, stack + [d])
  {
    NextHistory(start, stack, d);
  }

  lemma {:induction false} TapRefinesPush(start: string, stack: seq<nat>, d: nat)
    ensures ApplyDenomination(Expected(start, stack), d) == Expected(start, stack + [d])
  {
    NextTotal(start, stack, d);
    NextState(start, stack, d);
  }

  lemma {:induction false} UndoRefinesPop(start: string, stack: seq<nat>)
    ensures UndoDenomination(Expected(start, stack))
              == Expected(start, if stack == [] then [] else stack[..|stack| - 1])
  {
    if stack != [] {
      var shorter := stack[..|stack| - 1];
      HistoryLength(start, shorter);
      assert History(start, stack)[..|stack| - 1] == History(start, shorter);
    }
  }

  lemma {:induction false} ReplayRefinesStack(start: string, taps: seq<Tap>)
    ensures Replay(SetManual(start), taps) == Expected(start, Remaining(taps))
  {
    if taps != [] {
      var front := taps[..|taps| - 1];
      ReplayRefinesStack(start, front);
      match taps[|taps| - 1]
      case Denomination(d) => TapRefinesPush(start, Remaining(front), d);
      case Undo => UndoRefinesPop(start, Remaining(front));
    }
  }

  lemma {:induction false} ShownIsSum(stack: seq<nat>)
    ensures Sum(stack) <= MAX_SAFE_INTEGER ==> Shown(stack) == Sum(stack)
    ensures Shown(stack) <= Sum(stack)
  {
    if stack != [] {
      ShownIsSum(stack[..|stack| - 1]);
    }
  }

  // After any taps and undos: with taps left, the field parses to their sum
  // exactly when the sum is within the bound; with none left, the whole
  // original state is back.
  lemma {:induction false} QuickCashStack(start: string, taps: seq<Tap>)
    ensures var s := Replay(SetManual(start), taps);
            var left := Remaining(taps);
            && (left == [] ==> s == SetManual(start))
            && (left != [] ==> (ParseMoney(s.value) == Some(Sum(left)) <==> Sum(left) <= MAX_SAFE_INTEGER))
            && |s.quickHistory| == |left|
  {
    ReplayRefinesStack(start, taps);
    var left := Remaining(taps);
    ShownIsSum(left);
    HistoryLength(start, left);
    PrintThenParse(Shown(left));
  }

  // The same from the exact-amount button: it is the manual entry of its own text.
  lemma {:induction false} ExactStartsTheSameStack(exact: nat, taps: seq<Tap>)
    requires exact <= MAX_SAFE_INTEGER
    ensures var s := Replay(CreateExact(exact), taps);
            var left := Remaining(taps);
            && (left == [] ==> s == CreateExact(exact) && ParseMoney(s.value) == Some(exact))
            && (left != [] ==> (ParseMoney(s.value) == Some(Sum(left)) <==> Sum(left) <= MAX_SAFE_INTEGER))
  {
    assert CreateExact(exact) == SetManual(PrintMoney(exact));
    QuickCashStack(PrintMoney(exact), taps);
    PrintThenParse(exact);
  }

  // Undo takes back a tap entirely exactly on states whose flag matches their
  // history, and every state a run can reach is one.
  lemma {:induction false} UndoRestoresEverything(state: CashInput, d: nat)
    ensures UndoDenomination(ApplyDenomination(state, d)) == state <==>
              (state.quickInputStarted <==> state.quickHistory != [])
  {
    var tapped := ApplyDenomination(state, d);
    assert tapped.quickHistory[..|tapped.quickHistory| - 1] == state.quickHistory;
  }

  lemma {:induction false} ReachedStatesUndo(start: string, taps: seq<Tap>, d: nat)
    ensures Replay(SetManual(start), taps + [Denomination(d)] + [Undo]) == Replay(SetManual(start), taps)
  {
    ReplayRefinesStack(start, taps);
    var tapped := taps + [Denomination(d)];
    assert tapped[..|tapped| - 1] == taps;
    assert (tapped + [Undo])[..|tapped|] == tapped;
    HistoryLength(start, Remaining(taps));
    UndoRestoresEverything(Replay(SetManual(start), taps), d);
  }
}
