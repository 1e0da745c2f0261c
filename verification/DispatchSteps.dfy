/** One rule more in the dispatch: the stack covers its numbers, the code is short enough and loses
    no offset, and as long as everything is settled on one action it is known what the code does. */
module DispatchSteps {
  import opened Words
  import opened Bpf
  import opened CodeSize
  import opened Outlines
  import opened Rules
  import opened CodeMeaning
  import opened Branching
  import opened MappingCode
  import opened Dispatch
  import opened SlotReach
  import opened Collapse

  /** Where the numbers above the first i rules start. */
  function Boundary(rules: seq<Rule>, i: nat): int
    requires i <= |rules|
  {
    if i < |rules| then rules[i].first else TWO_32
  }

  /** A branch for each rule that has got a slot of its own. */
  predicate DispatchSized(b0: seq<Instr>, b: seq<Instr>, st: seq<Slot>, rules: seq<Rule>, i: nat)
    requires i <= |rules|
  {
    && |b| + BRANCH_SIZE * |st| + RulesCost(rules[..i], Length)
       <= |b0| + RulesCost(rules, Length) + BRANCH_SIZE * (|rules| - i)
    && (|st| <= 1 ==> |b| + RulesCost(rules[..i], Length) <= |b0| + RulesCost(rules, Length))
  }

  predicate DispatchSafe(b0: seq<Instr>, b: seq<Instr>, st: seq<Slot>, rules: seq<Rule>, i: nat)
    requires i <= |rules|
  {
    RulesFit(rules) && Sighted(b0) ==> Sighted(b) && SafeStack(|b|, st, rules, i)
  }

  /** A single slot has code only if it is for a single rule. */
  predicate OnlySlot(st: seq<Slot>, rules: seq<Rule>, i: nat) {
    |st| == 1 ==> st[0].loc < 0 || (i + 1 == |rules| && rules[i].IsConditional())
  }

  /** The code from b0 up to b and the stack are for rules[i..]. */
  ghost predicate Dispatched(b0: seq<Instr>, b: seq<Instr>, st: seq<Slot>, rules: seq<Rule>, codes: seq<int>, i: nat)
    requires i <= |rules|
  {
    && b0 <= b && CodesImplement(b, rules, codes, i)
    && StackReady(b, st, Boundary(rules, i), rules, codes)
    && |st| <= STACK_SIZE && (st == [] <==> i == |rules|)
    && DispatchSized(b0, b, st, rules, i)
    && DispatchSafe(b0, b, st, rules, i) && DispatchLoses(b0, b, rules)
    && Collapsing(b0, b, st, rules, i) && OnlySlot(st, rules, i)
  }

  lemma DispatchStart(b: seq<Instr>, rules: seq<Rule>, codes: seq<int>)
    requires Partition(rules) && |codes| == |rules|
    ensures Dispatched(b, b, [], rules, codes, |rules|)
  {
    assert rules[..|rules|] == rules;
    CollapseStart(b, rules);
  }

  /** The code of rule i, which starts at loc, leaves what there is on the stack alone. */
  lemma RuleKeepsStack(b: seq<Instr>, b1: seq<Instr>, st: seq<Slot>, rules: seq<Rule>, codes: seq<int>, i: nat,
                       loc: int)
    requires Partition(rules) && i < |rules| && b <= b1 && LocOk(b1, loc) && Implements(b1, loc, rules[i])
    requires CodesImplement(b, rules, codes, i + 1) && StackReady(b, st, Boundary(rules, i + 1), rules, codes)
    ensures Boundary(rules, i + 1) == rules[i].last + 1
    ensures CodesImplement(b1, rules, codes[i := loc], i)
    ensures StackReady(b1, st, rules[i].last + 1, rules, codes[i := loc])
  {
    StackExtends(b, b1, st, rules[i].last + 1, rules, codes, TopLevel(st));
    StackKept(b1, st, rules, codes, TopLevel(st), i, loc);
    CodesExtend(b, b1, rules, codes, i + 1);
  }

  lemma {:induction false} RuleSized(b0: seq<Instr>, b: seq<Instr>, b1: seq<Instr>, st: seq<Slot>, rules: seq<Rule>,
                                     i: nat, loc: int)
    requires i < |rules| && DispatchSized(b0, b, st, rules, i + 1) && RuleLands(|b|, |b1|, loc, rules, i)
    ensures |b1| + BRANCH_SIZE * |st| + RulesCost(rules[..i], Length)
         <= |b0| + RulesCost(rules, Length) + BRANCH_SIZE * (|rules| - i - 1)
    ensures |st| <= 1 ==> |b1| + RulesCost(rules[..i], Length) <= |b0| + RulesCost(rules, Length)
  {
    RulesCostNext(rules, i, Length);
  }

  /** The code of a rule that fits loses no offset, nor does any if no comparison is settled. */
  predicate RuleSighted(b: seq<Instr>, b1: seq<Instr>, rules: seq<Rule>, i: nat) {
    (RulesFit(rules) && Sighted(b) ==> Sighted(b1)) && DispatchLoses(b, b1, rules)
  }

  /** Rule i has the code of the topmost slot. */
  lemma WidenStep(b0: seq<Instr>, b: seq<Instr>, b1: seq<Instr>, st: seq<Slot>, rules: seq<Rule>, codes: seq<int>,
                  i: nat, loc: int)
    requires Partition(rules) && i < |rules| && Dispatched(b0, b, st, rules, codes, i + 1)
    requires b <= b1 && LocOk(b1, loc) && Implements(b1, loc, rules[i]) && RuleBuilt(b, b1, rules[i], loc)
    requires RuleSighted(b, b1, rules, i)
    requires st != [] && st[|st| - 1].loc == loc
    ensures Dispatched(b0, b1, Widened(st, rules[i].first), rules, codes[i := loc], i)
  {
    assert Total(rules[i]);
    assert LocOk(b, st[|st| - 1].loc);
    RuleBuiltLands(b, b1, loc, rules, i);
    RuleKeepsStack(b, b1, st, rules, codes, i, loc);
    WidenSlot(b1, st, rules, codes[i := loc], i);
    RuleSized(b0, b, b1, st, rules, i, loc);
    if RulesFit(rules) && Sighted(b0) { WidenIsSafe(|b|, |b1|, st, rules, i); }
    DispatchLosesOn(b0, b, b1, rules);
    CollapseNext(b0, b, b1, b1, st, Widened(st, rules[i].first), rules, i, loc);
  }

  /** What joining slots does to the code, from b1 to b2, and to the stack. */
  ghost predicate Joined(b1: seq<Instr>, b2: seq<Instr>, st0: seq<Slot>, st: seq<Slot>, rules: seq<Rule>) {
    && b1 <= b2 && |b2| + BRANCH_SIZE * |st| <= |b1| + BRANCH_SIZE * |st0|
    && Cascaded(st0, st, |b1|, |b2|) && LostInDispatch(b1, b2, rules)
    && (Sighted(b1) && (|st0| >= 2 && st0[|st0| - 2].level == st0[|st0| - 1].level ==> JoinSafe(|b1|, st0)) ==>
          Sighted(b2))
  }

  /** Rule i gets a slot of its own. */
  lemma PushStep(b0: seq<Instr>, b: seq<Instr>, b1: seq<Instr>, b2: seq<Instr>, st0: seq<Slot>, st: seq<Slot>,
                 rules: seq<Rule>, codes: seq<int>, i: nat, loc: int)
    requires Partition(rules) && i < |rules| && Dispatched(b0, b, st0, rules, codes, i + 1)
    requires b <= b1 && LocOk(b1, loc) && Implements(b1, loc, rules[i]) && RuleBuilt(b, b1, rules[i], loc)
    requires RuleSighted(b, b1, rules, i) && CodesImplement(b1, rules, codes[i := loc], i)
    requires st0 != [] ==> st0[|st0| - 1].loc != loc
    requires Joined(b1, b2, st0, st, rules) && StackReady(b2, st, rules[i].last + 1, rules, codes[i := loc])
    requires |st| >= 2 ==> st[|st| - 2].level != st[|st| - 1].level
    ensures |st| < STACK_SIZE
    ensures Dispatched(b0, b2, st + [Slot(0, loc, rules[i].first)], rules, codes[i := loc], i)
  {
    assert Total(rules[i]);
    var x := Slot(0, loc, rules[i].first);
    RuleBuiltLands(b, b1, loc, rules, i);
    CodesExtend(b1, b2, rules, codes[i := loc], i);
    NewTop(|b|, |b1|, |b2|, st0, st, rules, i, loc);
    PushSlot(b2, st, rules, codes[i := loc], i);
    RuleSized(b0, b, b1, st0, rules, i, loc);
    PushSafe(b0, b, b1, b2, st0, st, x, rules, i);
    DispatchLosesOn(b0, b, b1, rules);
    DispatchLosesOn(b0, b1, b2, rules);
    if st == [] { assert b2 == b1; }
    CollapseNext(b0, b, b1, b2, st0, st + [x], rules, i, loc);
  }

  /** The new slot differs from the one below, so that it needs to be one of its own. */
  lemma NewTop(len0: nat, len1: nat, len: nat, st0: seq<Slot>, st: seq<Slot>, rules: seq<Rule>, i: nat, loc: int)
    requires i < |rules| && RuleLands(len0, len1, loc, rules, i) && Cascaded(st0, st, len1, len)
    requires st0 != [] ==> st0[|st0| - 1].loc != loc
    ensures st != [] ==> st[|st| - 1].loc != loc
  {
  }

  lemma PushSafe(b0: seq<Instr>, b: seq<Instr>, b1: seq<Instr>, b2: seq<Instr>, st0: seq<Slot>, st: seq<Slot>,
                 x: Slot, rules: seq<Rule>, i: nat)
    requires i < |rules| && DispatchSafe(b0, b, st0, rules, i + 1) && RuleLands(|b|, |b1|, x.loc, rules, i)
    requires RuleSighted(b, b1, rules, i) && Joined(b1, b2, st0, st, rules) && x.level == 0
    ensures DispatchSafe(b0, b2, st + [x], rules, i)
  {
    if RulesFit(rules) && Sighted(b0) {
      if |st0| >= 2 && st0[|st0| - 2].level == st0[|st0| - 1].level {
        JoinIsSafe(|b|, |b1|, x.loc, st0, rules, i);
      }
      PushIsSafe(|b|, |b1|, |b2|, st0, st, x, rules, i);
    }
  }

  /** A branch on the number has joined the two topmost slots. */
  lemma TopJoined(b: seq<Instr>, b1: seq<Instr>, st: seq<Slot>, joined: seq<Slot>, growth: nat, loc: int,
                  rules: seq<Rule>, codes: seq<int>, top: nat)
    requires |st| >= 2 && NeighboursDiffer(st) && StackCovers(b, st, st[|st| - 1].nr, rules, codes, top)
    requires b <= b1 && |b| <= loc == |b1| - 1 && LocOk(b1, loc) && SightedBelow(b, b1)
    requires BranchAt(b1, loc, Jge, Imm(st[|st| - 2].nr), st[|st| - 2].loc, st[|st| - 1].loc)
    requires joined == st[..|st| - 2] + [Slot(st[|st| - 2].level + growth, loc, st[|st| - 1].nr)]
    ensures StackCovers(b1, joined, st[|st| - 1].nr, rules, codes, Max(st[|st| - 2].level, top) + 1)
    ensures IsJoin(st, joined, growth) && NeighboursDiffer(joined)
    ensures LostInDispatch(b, b1, rules)
    ensures Sighted(b) && StaysSighted(b, b1) ==> Sighted(b1)
  {
    StackExtends(b, b1, st, st[|st| - 1].nr, rules, codes, top);
    JoinCovers(b1, st, joined, growth, loc, rules, codes, top);
    BranchLoses(b, b1, st[|st| - 2].nr, st[|st| - 2].loc, st[|st| - 1].loc, rules);
    JoinDiffers(b, st, joined, loc);
    if Sighted(b) && StaysSighted(b, b1) { SightedOn(b, b1); }
  }

  /** What joining one pair does. */
  predicate JoinedPair(b1: seq<Instr>, b2: seq<Instr>, st: seq<Slot>, joined: seq<Slot>, rules: seq<Rule>)
    requires |st| >= 2
  {
    && b1 <= b2 && |b1| < |b2| <= |b1| + BRANCH_SIZE && IsJoin(st, joined, 1)
    && joined[|st| - 2].loc == |b2| - 1 && LostInDispatch(b1, b2, rules)
    && (Sighted(b1) && JoinSafe(|b1|, st) ==> Sighted(b2))
  }

  /** The low slot of the second pair and of all later ones starts at the last instruction. */
  lemma JoinedMore(b: seq<Instr>, b1: seq<Instr>, b2: seq<Instr>, st0: seq<Slot>, st: seq<Slot>, joined: seq<Slot>,
                   rules: seq<Rule>)
    requires |st| >= 2 && st[|st| - 2].level == st[|st| - 1].level && |st0| <= STACK_SIZE
    requires Joined(b, b1, st0, st, rules) && |st| <= |st0| && JoinedPair(b1, b2, st, joined, rules)
    ensures Joined(b, b2, st0, joined, rules) && |joined| < |st0|
  {
    assert b <= b1 <= b2;
    LostInDispatchOn(b, b1, b2, rules);
    assert joined[..|joined| - 1] == st[..|st| - 1][..|joined| - 1] == st0[..|st| - 1][..|joined| - 1]
        == st0[..|joined| - 1];
    if st == st0 && |b1| == |b| { assert b1 == b; }
  }

  lemma RuleKeepsSight(b: seq<Instr>, b1: seq<Instr>, loc: int, rules: seq<Rule>, i: nat)
    requires i < |rules| && RuleBuilt(b, b1, rules[i], loc)
    ensures RuleSighted(b, b1, rules, i)
  {
    RulesCostEach(rules, i, Loose);
    RulesCostEach(rules, i, Length);
    if RulesFit(rules) && Sighted(b) { SightedOn(b, b1); }
  }

  /** The dispatch needs no code exactly if one action is all there is. */
  lemma SettledDispatch(b0: seq<Instr>, b: seq<Instr>, st: seq<Slot>, rules: seq<Rule>, loc: int)
    requires st != [] && Collapsing(b0, b, st, rules, 0)
    requires if |st| == 1 then loc == st[0].loc < 0 else 0 <= loc
    ensures loc < 0 <==> exists c :: 0 < c && AllSettled(rules, 0, c)
    ensures loc < 0 ==> AllSettled(rules, 0, -loc) && Left(b0, b, rules, 0)
  {
    if loc < 0 { assert AllSettled(rules, 0, -loc); }
  }

  /** A single slot has no code, as no condition is for all numbers. */
  lemma OnlyAction(b0: seq<Instr>, b: seq<Instr>, st: seq<Slot>, rules: seq<Rule>, codes: seq<int>)
    requires Partition(rules) && Dispatched(b0, b, st, rules, codes, 0)
    ensures st != [] && StackReady(b, st, 0, rules, codes) && (|st| == 1 ==> st[0].loc < 0)
  {
    assert Total(rules[0]);
  }

  /** The state of the last joins: st0 is the stack they started with, and tests how many tests the
      numbers of the topmost slot take. */
  predicate JoinedLast(b: seq<Instr>, b1: seq<Instr>, st0: seq<Slot>, st: seq<Slot>, rules: seq<Rule>, tests: nat)
    requires st0 != []
  {
    && b <= b1 && 1 <= |st| <= |st0| && |b1| + BRANCH_SIZE * |st| <= |b| + BRANCH_SIZE * |st0|
    && LevelsDecrease(st, |st| - 1) && st[0].level == st0[0].level
    && (tests <= if |st| >= 2 then st[|st| - 2].level else st0[0].level + (if |st0| >= 2 then 1 else 0))
    && LostInDispatch(b, b1, rules)
    && ((st == st0 && b1 == b) || (|st| < |st0| && st[|st| - 1].loc == |b1| - 1 >= |b|))
    && (Sighted(b) && (|st0| >= 2 ==> JoinSafe(|b|, st0)) ==> Sighted(b1))
  }

  lemma JoinedLastMore(b: seq<Instr>, b1: seq<Instr>, b2: seq<Instr>, st0: seq<Slot>, st: seq<Slot>,
                       joined: seq<Slot>, rules: seq<Rule>, tests: nat)
    requires st0 != [] && |st| >= 2 && JoinedLast(b, b1, st0, st, rules, tests) && IsJoin(st, joined, 0)
    requires b1 <= b2 && |b2| <= |b1| + BRANCH_SIZE && joined[|st| - 2].loc == |b2| - 1 >= |b1|
    requires (Sighted(b1) && JoinSafe(|b1|, st) ==> Sighted(b2)) && LostInDispatch(b1, b2, rules)
    ensures JoinedLast(b, b2, st0, joined, rules, st[|st| - 2].level + 1)
  {
    assert b <= b1 <= b2;
    LostInDispatchOn(b, b1, b2, rules);
    LastJoinLevels(st, joined);
  }

  /** The last slot covers all numbers. */
  lemma JoinedToOne(b: seq<Instr>, st0: seq<Slot>, st: seq<Slot>, rules: seq<Rule>, codes: seq<int>, tests: nat)
    requires |st| == 1 && StackCovers(b, st, 0, rules, codes, tests)
    requires st0 != [] && WideEnough(st0, rules) && tests <= st0[0].level + if |st0| >= 2 then 1 else 0
    ensures SlotFinds(b, st[0].loc, 0, TWO_32, rules, codes, tests) && LocOk(b, st[0].loc)
    ensures tests == 0 || Pow2(tests - 1) < |rules|
  {
    assert Upper(st, 0) == TWO_32;
    TreeIsBalanced(st0, rules, tests);
  }

  /** The last joins start with slots within reach. */
  lemma LastJoinIsSafe(b0: seq<Instr>, b: seq<Instr>, st: seq<Slot>, rules: seq<Rule>, codes: seq<int>)
    requires Dispatched(b0, b, st, rules, codes, 0)
    ensures RulesFit(rules) && Sighted(b0) ==> Sighted(b) && (|st| >= 2 ==> JoinSafe(|b|, st))
  {
    assert rules[..0] == [];
  }
}
