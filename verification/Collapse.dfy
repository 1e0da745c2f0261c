/** Rules that the generator settles on one action: the dispatch then needs no code, and what code
    there is has been left over from the conditions. */
module Collapse {
  import opened Bpf
  import opened Rules
  import opened CodeMeaning
  import opened MappingCode
  import opened Dispatch

  /** From rule i on, the generator settles every rule on this action. */
  predicate AllSettled(rules: seq<Rule>, i: nat, action: int) {
    forall j :: i <= j < |rules| ==> Settled(rules[j].Says()) == Some(action)
  }

  predicate LeftCode(rules: seq<Rule>, i: nat)
    decreases |rules| - i
  {
    i < |rules| && (Leaves(rules[i].Says()) || LeftCode(rules, i + 1))
  }

  predicate LeftKill(rules: seq<Rule>, i: nat)
    decreases |rules| - i
  {
    i < |rules| && (LeavesKilling(rules[i].Says()) || LeftKill(rules, i + 1))
  }

  /** What the code left on top, that of the first rule that leaves any, leads to. */
  function LeftTop(rules: seq<Rule>, i: nat, d: Data): Option<int>
    decreases |rules| - i
  {
    if i >= |rules| then None
    else if Leaves(rules[i].Says()) then Leftover(rules[i].Says(), d)
    else LeftTop(rules, i + 1, d)
  }

  ghost predicate LeftYields(b: seq<Instr>, rules: seq<Rule>, i: nat)
    requires LocOk(b, |b| - 1)
  {
    forall d: Data :: Yields(b, |b| - 1, d, CodeOf(LeftTop(rules, i, d)))
  }

  /** As long as there is one slot at most, the code from b0 up to b is what the conditions of
      rules[i..] have left, and the slot is an action exactly if all are settled on it. */
  ghost predicate Left(b0: seq<Instr>, b: seq<Instr>, rules: seq<Rule>, i: nat) {
    && b0 <= b
    && (LeftCode(rules, i) <==> |b0| < |b|)
    && (HoldsKill(b) <==> HoldsKill(b0) || LeftKill(rules, i))
    && (|b0| < |b| ==> LocOk(b, |b| - 1) && LeftYields(b, rules, i))
  }

  ghost predicate Collapsing(b0: seq<Instr>, b: seq<Instr>, st: seq<Slot>, rules: seq<Rule>, i: nat) {
    && (|st| <= 1 ==> Left(b0, b, rules, i))
    && (st != [] ==> forall c {:trigger AllSettled(rules, i, c)} :: 0 < c ==>
          (AllSettled(rules, i, c) <==> |st| == 1 && st[0].loc == -c))
  }

  lemma CollapseStart(b: seq<Instr>, rules: seq<Rule>)
    ensures Collapsing(b, b, [], rules, |rules|)
  {
  }

  /** The code left on top is still that of the later rules. */
  lemma LeftBelow(b: seq<Instr>, rules: seq<Rule>, i: nat)
    requires i < |rules| && LocOk(b, |b| - 1) && LeftYields(b, rules, i + 1) && !Leaves(rules[i].Says())
    ensures LeftYields(b, rules, i)
  {
    forall d: Data ensures Yields(b, |b| - 1, d, CodeOf(LeftTop(rules, i, d))) {
      assert Yields(b, |b| - 1, d, CodeOf(LeftTop(rules, i + 1, d)));
    }
  }

  lemma LeftOnTop(b: seq<Instr>, rules: seq<Rule>, i: nat)
    requires i < |rules| && LocOk(b, |b| - 1) && Leaves(rules[i].Says()) && TopYields(b, rules[i].exprs)
    ensures LeftYields(b, rules, i)
  {
    forall d: Data ensures Yields(b, |b| - 1, d, CodeOf(LeftTop(rules, i, d))) {
      assert Yields(b, |b| - 1, d, CodeOf(TopAction(rules[i].exprs, d)));
    }
  }

  /** The code of rule i on top. */
  lemma LeftNext(b0: seq<Instr>, b1: seq<Instr>, b2: seq<Instr>, rules: seq<Rule>, i: nat, loc: int)
    requires i < |rules| && Left(b0, b1, rules, i + 1) && RuleBuilt(b1, b2, rules[i], loc)
    ensures Left(b0, b2, rules, i)
  {
    assert b0 <= b1 <= b2;
    if |b1| < |b2| {
      LeftOnTop(b2, rules, i);
    } else {
      assert b2 == b1;
      if |b0| < |b2| { LeftBelow(b2, rules, i); }
    }
  }

  lemma AllSettledNext(rules: seq<Rule>, i: nat, action: int)
    requires i < |rules|
    ensures AllSettled(rules, i, action)
       <==> Settled(rules[i].Says()) == Some(action) && AllSettled(rules, i + 1, action)
  {
  }

  lemma RuleSettled(b0: seq<Instr>, b: seq<Instr>, rule: Rule, loc: int, c: int)
    requires RuleBuilt(b0, b, rule, loc) && RuleOk(rule) && 0 < c
    ensures Settled(rule.Says()) == Some(c) <==> loc == -c
  {
  }

  /** Rule i widens the slot, or gets one of its own. */
  lemma CollapseNext(b0: seq<Instr>, b1: seq<Instr>, b2: seq<Instr>, b: seq<Instr>, st0: seq<Slot>, st: seq<Slot>,
                     rules: seq<Rule>, i: nat, loc: int)
    requires i < |rules| && RuleOk(rules[i]) && Collapsing(b0, b1, st0, rules, i + 1)
    requires RuleBuilt(b1, b2, rules[i], loc)
    requires st0 == [] <==> i + 1 == |rules|
    requires st != [] && (|st| == 1 ==> st[0].loc == loc && b == b2 && |st0| <= 1)
    requires st0 != [] && st0[|st0| - 1].loc == loc ==> |st| == |st0|
    requires st0 != [] && st0[|st0| - 1].loc != loc ==> |st| > 1
    requires st0 == [] ==> |st| == 1
    ensures Collapsing(b0, b, st, rules, i)
  {
    if |st| == 1 { LeftNext(b0, b1, b2, rules, i, loc); }
    forall c | 0 < c ensures AllSettled(rules, i, c) <==> |st| == 1 && st[0].loc == -c {
      AllSettledNext(rules, i, c);
      RuleSettled(b1, b2, rules[i], loc, c);
    }
  }
}
