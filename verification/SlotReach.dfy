/** Why joining slots loses no jump offset while the topmost slots stay within reach, and where one can
    be lost at all. */
module SlotReach {
  import opened Words
  import opened Bpf
  import opened CodeSize
  import opened Outlines
  import opened Rules
  import opened CodeMeaning
  import opened ConditionCode
  import opened Branching
  import opened MappingCode
  import opened Dispatch

  /** As much code as one rule can cause by joining slots. */
  const CASCADE: nat := BRANCH_SIZE * (STACK_SIZE - 1)

  /** How much code the conditions of a rule may take, for what is below it to stay within reach. */
  const ROOM: nat := MAX_JUMP - CASCADE

  predicate Within(len: int, loc: int, far: int) {
    loc < 0 || len - 1 - loc <= far
  }

  /** The two topmost slots can be joined without losing an offset. */
  predicate JoinSafe(len: int, st: seq<Slot>)
    requires |st| >= 2
  {
    Within(len, st[|st| - 2].loc, MAX_JUMP) || (0 <= st[|st| - 1].loc && Within(len, st[|st| - 1].loc, NEAR))
  }

  /** The conditions take little code altogether; or, if no comparison is settled by constants, each
      rule takes little, or it is the only one that takes any. */
  predicate RulesFit(rules: seq<Rule>) {
    if RulesCost(rules, Loose) == 0 then
      forall i, j :: 0 <= i < |rules| && 0 <= j < |rules| && i != j && RuleCost(rules[j], Length) > 0 ==>
        RuleCost(rules[i], Length) <= ROOM
    else RulesCost(rules, Length) <= ROOM
  }

  /** How much of the code of rules[i..] may not be reached: none, if no comparison is settled. */
  function Waste(rules: seq<Rule>, i: nat): int
    requires i <= |rules|
  {
    if RulesCost(rules, Loose) == 0 then 0 else RulesCost(rules, Length) - RulesCost(rules[..i], Length)
  }

  /** The two topmost slots are near enough for one more rule. */
  predicate Roomy(len: int, st: seq<Slot>, waste: int) {
    && (st != [] ==> st[|st| - 1].level == 0 && Within(len, st[|st| - 1].loc, CASCADE + waste))
    && (|st| >= 2 ==> || Within(len, st[|st| - 2].loc, CASCADE + waste)
                      || (0 <= st[|st| - 1].loc && Within(len, st[|st| - 1].loc, waste)))
  }

  /** No slot of a single range has code. */
  predicate ActionSlots(st: seq<Slot>) {
    forall k :: 0 <= k < |st| && st[k].level == 0 ==> st[k].loc < 0
  }

  /** The stack after rules[i..]. */
  predicate SafeStack(len: int, st: seq<Slot>, rules: seq<Rule>, i: nat)
    requires i <= |rules|
  {
    && Roomy(len, st, Waste(rules, i))
    && (RulesCost(rules[..i], Length) == RulesCost(rules, Length) ==> ActionSlots(st))
  }

  lemma {:induction false} NoCostAbove(rules: seq<Rule>, i: nat)
    requires i <= |rules| && forall j :: i <= j < |rules| ==> RuleCost(rules[j], Length) == 0
    ensures RulesCost(rules[..i], Length) == RulesCost(rules, Length)
    decreases |rules| - i
  {
    if i == |rules| {
      assert rules[..i] == rules;
    } else {
      RulesCostNext(rules, i, Length);
      NoCostAbove(rules, i + 1);
    }
  }

  lemma {:induction false} CostPrefix(rules: seq<Rule>, i: nat)
    requires i <= |rules|
    ensures RulesCost(rules[..i], Length) <= RulesCost(rules, Length)
    decreases |rules| - i
  {
    if i == |rules| {
      assert rules[..i] == rules;
    } else {
      RulesCostNext(rules, i, Length);
      CostPrefix(rules, i + 1);
    }
  }

  /** The code of rule i takes the buffer from len0 to len instructions. It starts at loc, at the
      instruction emitted last unless some of the code is wasted. */
  predicate RuleLands(len0: int, len: int, loc: int, rules: seq<Rule>, i: nat)
    requires i < |rules|
  {
    && len0 <= len <= len0 + RuleCost(rules[i], Length) && (loc < 0 || len0 <= loc < len)
    && (RulesCost(rules, Loose) == 0 ==> if loc < 0 then len == len0 else loc == len - 1)
  }

  lemma RuleBuiltLands(b0: seq<Instr>, b: seq<Instr>, loc: int, rules: seq<Rule>, i: nat)
    requires i < |rules| && RuleBuilt(b0, b, rules[i], loc) && RuleOk(rules[i])
    ensures RuleLands(|b0|, |b|, loc, rules, i)
  {
    RulesCostEach(rules, i, Loose);
  }

  /** The code of a rule leaves the topmost slots within reach. */
  lemma JoinIsSafe(len0: int, len: int, loc: int, st: seq<Slot>, rules: seq<Rule>, i: nat)
    requires RulesFit(rules) && i < |rules| && SafeStack(len0, st, rules, i + 1)
    requires RuleLands(len0, len, loc, rules, i)
    requires |st| >= 2 && st[|st| - 2].level == st[|st| - 1].level
    ensures JoinSafe(len, st)
  {
    RulesCostNext(rules, i, Length);
    CostPrefix(rules, i);
    if RulesCost(rules, Loose) == 0 && RuleCost(rules[i], Length) > ROOM { NoCostAbove(rules, i + 1); }
  }

  /** Joining emits no more than one cascade, and what is joined starts at the last instruction. */
  predicate Cascaded(st0: seq<Slot>, st: seq<Slot>, len1: int, len: int) {
    || (st == st0 && len == len1)
    || (st != [] && |st| <= |st0| && st[|st| - 1].level > 0 && st[|st| - 1].loc == len - 1
        && len1 < len <= len1 + CASCADE && st[..|st| - 1] == st0[..|st| - 1])
  }

  /** A new slot for rule i, on top of what the joins have left. */
  lemma PushIsSafe(len0: int, len1: int, len: int, st0: seq<Slot>, st: seq<Slot>, x: Slot, rules: seq<Rule>, i: nat)
    requires i < |rules| && SafeStack(len0, st0, rules, i + 1) && RuleLands(len0, len1, x.loc, rules, i)
    requires Cascaded(st0, st, len1, len) && x.level == 0
    ensures SafeStack(len, st + [x], rules, i)
  {
    RulesCostNext(rules, i, Length);
    CostPrefix(rules, i + 1);
    var more := if RulesCost(rules, Loose) == 0 then 0 else RuleCost(rules[i], Length);
    PushIsRoomy(len0, len1, len, st0, st, x, Waste(rules, i + 1), more);
    if RulesCost(rules[..i], Length) == RulesCost(rules, Length) { PushIsAction(st0, st, x, len1, len); }
  }

  lemma PushIsRoomy(len0: int, len1: int, len: int, st0: seq<Slot>, st: seq<Slot>, x: Slot, waste: nat, more: nat)
    requires Roomy(len0, st0, waste) && Cascaded(st0, st, len1, len) && x.level == 0
    requires len0 <= len1 && if x.loc < 0 then len1 - len0 <= more else len1 - 1 - x.loc <= more
    ensures Roomy(len, st + [x], waste + more)
  {
  }

  lemma PushIsAction(st0: seq<Slot>, st: seq<Slot>, x: Slot, len1: int, len: int)
    requires ActionSlots(st0) && Cascaded(st0, st, len1, len) && x.loc < 0
    ensures ActionSlots(st + [x])
  {
    forall k | 0 <= k < |st| && st[k].level == 0 ensures st[k].loc < 0 {
      if st != st0 { assert st[..|st| - 1][k] == st0[..|st| - 1][k]; }
    }
  }

  /** Widening the topmost slot leaves it where it is. */
  lemma WidenIsSafe(len0: int, len: int, st: seq<Slot>, rules: seq<Rule>, i: nat)
    requires i < |rules| && SafeStack(len0, st, rules, i + 1) && st != []
    requires st[|st| - 1].loc < len0 && RuleLands(len0, len, st[|st| - 1].loc, rules, i)
    ensures SafeStack(len, Widened(st, rules[i].first), rules, i)
  {
    RulesCostNext(rules, i, Length);
    CostPrefix(rules, i + 1);
  }

  // ----- where offsets can be lost -----

  /** An offset that has been lost since b0 belongs to a test of the number in the dispatch. */
  predicate LostInDispatch(b0: seq<Instr>, b: seq<Instr>, rules: seq<Rule>) {
    forall i :: |b0| <= i < |b| && b[i].IsBlind() ==> TestsNumber(b[i], rules)
  }

  predicate TestsNumber(instr: Instr, rules: seq<Rule>) {
    instr.JmpK? && instr.cond.Jge? && Starts(rules, instr.k)
  }

  lemma LostInDispatchOn(b0: seq<Instr>, b1: seq<Instr>, b2: seq<Instr>, rules: seq<Rule>)
    requires b1 <= b2 && LostInDispatch(b0, b1, rules) && LostInDispatch(b1, b2, rules)
    ensures LostInDispatch(b0, b2, rules)
  {
    forall i | |b0| <= i < |b2| && b2[i].IsBlind() ensures TestsNumber(b2[i], rules) {
      if i < |b1| { assert b2[i] == b1[i]; }
    }
  }

  /** No other one is lost unless constants settle a comparison. */
  predicate DispatchLoses(b0: seq<Instr>, b: seq<Instr>, rules: seq<Rule>) {
    RulesCost(rules, Loose) == 0 ==> LostInDispatch(b0, b, rules)
  }

  lemma DispatchLosesOn(b0: seq<Instr>, b1: seq<Instr>, b2: seq<Instr>, rules: seq<Rule>)
    requires b1 <= b2 && DispatchLoses(b0, b1, rules) && DispatchLoses(b1, b2, rules)
    ensures DispatchLoses(b0, b2, rules)
  {
    if RulesCost(rules, Loose) == 0 { LostInDispatchOn(b0, b1, b2, rules); }
  }

  /** No more is lost where no branch is emitted, or none that loses an offset. */
  lemma LosesNoMore(b: seq<Instr>, b1: seq<Instr>, rules: seq<Rule>)
    requires b <= b1 && DispatchLoses([], b, rules) && StaysSighted(b, b1)
    ensures DispatchLoses([], b1, rules)
    ensures Sighted(b) ==> Sighted(b1)
  {
    DispatchLosesOn([], b, b1, rules);
    if Sighted(b) { SightedOn(b, b1); }
  }

  /** A branch on the number where a rule starts, on top of b. */
  lemma BranchLoses(b: seq<Instr>, b1: seq<Instr>, nr: u32, high: int, low: int, rules: seq<Rule>)
    requires |b| < |b1| && SightedBelow(b, b1) && Starts(rules, nr)
    requires BranchAt(b1, |b1| - 1, Jge, Imm(nr), high, low)
    ensures LostInDispatch(b, b1, rules)
  {
  }
}
