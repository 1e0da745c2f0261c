/** Code for rules: actions and conditions, the dispatch on the system call number, and the
    check of the architecture. */
module RuleCode {
  import opened Words
  import opened Actions
  import opened Bpf
  import opened CodeSize
  import opened Outlines
  import opened Rules
  import opened CodeMeaning
  import opened ReturnCache
  import opened Branching
  import opened Emitter
  import opened ExprCode
  import opened MappingCode
  import opened Dispatch
  import opened SlotReach
  import opened Collapse
  import opened DispatchSteps
  import opened FilterCode

  /** Code for a rule: its action, or its conditions from the last one to the first. */
  method GenerateAction(ctxt: Context, rule: Rule) returns (loc: int)
    requires ctxt.Valid() && ctxt.Settled() && Total(rule)
    modifies ctxt`buffer, ctxt`cacheSize, ctxt`maxStackPtr, ctxt.basicActions, ctxt.cache
    ensures ctxt.Valid() && ctxt.Settled() && old(ctxt.buffer) <= ctxt.buffer && LocOk(ctxt.buffer, loc)
    ensures RuleCost(rule, Scratch) == 0 && old(ctxt.maxStackPtr) < BPF_MEMWORDS ==> ctxt.maxStackPtr < BPF_MEMWORDS
    ensures Implements(ctxt.buffer, loc, rule)
    ensures RuleBuilt(old(ctxt.buffer), ctxt.buffer, rule, loc)
  {
    if !rule.IsConditional() {
      return -rule.action;
    }
    loc := GenerateMappings(ctxt, rule.exprs);
  }

  method GenerateMappings(ctxt: Context, ms: seq<Mapping>) returns (loc: int)
    requires ctxt.Valid() && ctxt.Settled() && MappingsOk(ms) && HasCatchAll(ms)
    modifies ctxt`buffer, ctxt`cacheSize, ctxt`maxStackPtr, ctxt.basicActions, ctxt.cache
    ensures ctxt.Valid() && ctxt.Settled()
    ensures MappingsCost(ms, Scratch) == 0 && old(ctxt.maxStackPtr) < BPF_MEMWORDS ==> ctxt.maxStackPtr < BPF_MEMWORDS
    ensures MappingsBuilt(old(ctxt.buffer), ctxt.buffer, ms, loc)
  {
    ghost var b, slots := ctxt.buffer, ctxt.maxStackPtr;
    var k := |ms| - 1;
    loc := -ms[k].action;
    BuiltFromLast(b, ms, slots);
    while k > 0
      invariant 0 <= k < |ms| && ctxt.Valid() && ctxt.Settled()
      invariant BuiltFrom(b, ctxt.buffer, ms, k, loc, slots, ctxt.maxStackPtr)
    {
      k := k - 1;
      loc := AddMapping(ctxt, ms, k, loc, b, slots);
    }
    BuiltFromStart(b, ctxt.buffer, ms, loc, slots, ctxt.maxStackPtr);
  }

  /** The condition of mapping k, in front of the code at rest for the later ones; b is the code
      without that of the rule, and slots how many scratch words were in use then. */
  method AddMapping(ctxt: Context, ms: seq<Mapping>, k: nat, rest: int, ghost b: seq<Instr>, ghost slots: nat)
    returns (loc: int)
    requires ctxt.Valid() && ctxt.Settled() && k + 1 < |ms| && MappingsOk(ms)
    requires BuiltFrom(b, ctxt.buffer, ms, k + 1, rest, slots, ctxt.maxStackPtr)
    modifies ctxt`buffer, ctxt`cacheSize, ctxt`maxStackPtr, ctxt.basicActions, ctxt.cache
    ensures ctxt.Valid() && ctxt.Settled()
    ensures BuiltFrom(b, ctxt.buffer, ms, k, loc, slots, ctxt.maxStackPtr)
  {
    ghost var b1 := ctxt.buffer;
    MappingsCostNext(ms, k, Scratch);
    loc := GenerateExpr(ctxt, ms[k].cond.value, -ms[k].action, rest);
    MappingAtBuilt(b, b1, ctxt.buffer, ms, k, rest, loc);
  }

  /** Join the two topmost slots, the lower numbers on top, by a branch on the number. */
  method JoinTop(ctxt: Context, st: seq<Slot>, growth: nat, ghost rules: seq<Rule>, ghost codes: seq<int>,
                 ghost top: nat) returns (joined: seq<Slot>)
    requires ctxt.Valid() && ctxt.Settled() && |st| >= 2 && NeighboursDiffer(st)
    requires StackCovers(ctxt.buffer, st, st[|st| - 1].nr, rules, codes, top)
    modifies ctxt`buffer, ctxt`cacheSize, ctxt.basicActions, ctxt.cache
    ensures ctxt.Valid() && ctxt.Settled() && old(ctxt.buffer) <= ctxt.buffer
    ensures |ctxt.buffer| <= |old(ctxt.buffer)| + BRANCH_SIZE
    ensures StackCovers(ctxt.buffer, joined, st[|st| - 1].nr, rules, codes, Max(st[|st| - 2].level, top) + 1)
    ensures IsJoin(st, joined, growth) && NeighboursDiffer(joined)
    ensures joined[|st| - 2].loc == |ctxt.buffer| - 1 >= |old(ctxt.buffer)|
    ensures Sighted(old(ctxt.buffer)) && JoinSafe(|old(ctxt.buffer)|, st) ==> Sighted(ctxt.buffer)
    ensures LostInDispatch(old(ctxt.buffer), ctxt.buffer, rules)
  {
    var n := |st|;
    var high, low := st[n - 2], st[n - 1];
    ghost var b := ctxt.buffer;
    var loc := ctxt.AddJump(Jge, Imm(high.nr), high.loc, low.loc);
    joined := st[..n - 2] + [Slot(high.level + growth, loc, low.nr)];
    TopJoined(b, ctxt.buffer, st, joined, growth, loc, rules, codes, top);
  }

  /** Join the topmost slots as long as they are equally tall. */
  method JoinEqual(ctxt: Context, st0: seq<Slot>, ghost lo: int, ghost rules: seq<Rule>, ghost codes: seq<int>)
    returns (st: seq<Slot>)
    requires ctxt.Valid() && ctxt.Settled() && StackReady(ctxt.buffer, st0, lo, rules, codes) && |st0| <= STACK_SIZE
    modifies ctxt`buffer, ctxt`cacheSize, ctxt.basicActions, ctxt.cache
    ensures ctxt.Valid() && ctxt.Settled()
    ensures StackReady(ctxt.buffer, st, lo, rules, codes)
    ensures |st| >= 2 ==> st[|st| - 2].level != st[|st| - 1].level
    ensures Joined(old(ctxt.buffer), ctxt.buffer, st0, st, rules)
  {
    ghost var b := ctxt.buffer;
    st := st0;
    while |st| >= 2 && st[|st| - 2].level == st[|st| - 1].level
      invariant ctxt.Valid() && ctxt.Settled() && StackReady(ctxt.buffer, st, lo, rules, codes)
      invariant Joined(b, ctxt.buffer, st0, st, rules) && |st| <= |st0|
      decreases |st|
    {
      ghost var b1, before := ctxt.buffer, st;
      st := JoinEqualPair(ctxt, st, lo, rules, codes);
      JoinedMore(b, b1, ctxt.buffer, st0, before, st, rules);
    }
  }

  method JoinEqualPair(ctxt: Context, st: seq<Slot>, ghost lo: int, ghost rules: seq<Rule>, ghost codes: seq<int>)
    returns (joined: seq<Slot>)
    requires ctxt.Valid() && ctxt.Settled() && StackReady(ctxt.buffer, st, lo, rules, codes)
    requires |st| >= 2 && st[|st| - 2].level == st[|st| - 1].level
    modifies ctxt`buffer, ctxt`cacheSize, ctxt.basicActions, ctxt.cache
    ensures ctxt.Valid() && ctxt.Settled()
    ensures StackReady(ctxt.buffer, joined, lo, rules, codes)
    ensures JoinedPair(old(ctxt.buffer), ctxt.buffer, st, joined, rules)
  {
    ghost var top := TopLevel(st);
    joined := JoinTop(ctxt, st, 1, rules, codes, top);
    JoinLevels(st, joined, rules);
    assert TopLevel(joined) == Max(top, top) + 1;
  }

  /** Add the code of rule i, the next one down, to the stack; b is the code without the dispatch. */
  method AddRule(ctxt: Context, st0: seq<Slot>, rules: seq<Rule>, i: nat, ghost codes0: seq<int>, ghost b: seq<Instr>)
    returns (st: seq<Slot>, ghost codes: seq<int>)
    requires ctxt.Valid() && ctxt.Settled() && Partition(rules) && i < |rules|
    requires Dispatched(b, ctxt.buffer, st0, rules, codes0, i + 1)
    modifies ctxt`buffer, ctxt`cacheSize, ctxt`maxStackPtr, ctxt.basicActions, ctxt.cache
    ensures ctxt.Valid() && ctxt.Settled()
    ensures RulesCost(rules, Scratch) == 0 && old(ctxt.maxStackPtr) < BPF_MEMWORDS ==> ctxt.maxStackPtr < BPF_MEMWORDS
    ensures Dispatched(b, ctxt.buffer, st, rules, codes, i)
  {
    assert Total(rules[i]);
    RulesCostEach(rules, i, Scratch);
    ghost var b1 := ctxt.buffer;
    var loc := GenerateAction(ctxt, rules[i]);
    codes := codes0[i := loc];
    RuleKeepsSight(b1, ctxt.buffer, loc, rules, i);
    if st0 != [] && st0[|st0| - 1].loc == loc {
      WidenStep(b, b1, ctxt.buffer, st0, rules, codes0, i, loc);
      return Widened(st0, rules[i].first), codes;
    }
    st := PushRule(ctxt, st0, rules, i, codes0, loc, b, b1);
  }

  /** A slot for rule i, whose code is at loc; b1 is the code without that of the rule. */
  method PushRule(ctxt: Context, st0: seq<Slot>, rules: seq<Rule>, i: nat, ghost codes: seq<int>, loc: int,
                  ghost b: seq<Instr>, ghost b1: seq<Instr>) returns (st: seq<Slot>)
    requires ctxt.Valid() && ctxt.Settled() && Partition(rules) && i < |rules|
    requires Dispatched(b, b1, st0, rules, codes, i + 1)
    requires b1 <= ctxt.buffer && LocOk(ctxt.buffer, loc) && Implements(ctxt.buffer, loc, rules[i])
    requires RuleBuilt(b1, ctxt.buffer, rules[i], loc) && RuleSighted(b1, ctxt.buffer, rules, i)
    requires st0 != [] ==> st0[|st0| - 1].loc != loc
    modifies ctxt`buffer, ctxt`cacheSize, ctxt.basicActions, ctxt.cache
    ensures ctxt.Valid() && ctxt.Settled()
    ensures Dispatched(b, ctxt.buffer, st, rules, codes[i := loc], i)
  {
    ghost var b2 := ctxt.buffer;
    RuleKeepsStack(b1, b2, st0, rules, codes, i, loc);
    st := JoinEqual(ctxt, st0, rules[i].last + 1, rules, codes[i := loc]);
    PushStep(b, b1, b2, ctxt.buffer, st0, st, rules, codes, i, loc);
    assert |st| < STACK_SIZE;  // the source's stack has this many slots
    st := st + [Slot(0, loc, rules[i].first)];
  }

  /** The dispatch: with the system call number in A, control finds the code of the rule that
      covers it, within as many tests as a balanced tree over the rules needs. Its code, if
      there is any, ends with the branch it starts at. It needs none exactly if the generator
      settles all rules on one action. */
  method GenerateRules(ctxt: Context, rules: seq<Rule>) returns (loc: int, ghost codes: seq<int>, ghost tests: nat)
    requires ctxt.Valid() && ctxt.Settled() && Partition(rules)
    modifies ctxt`buffer, ctxt`cacheSize, ctxt`maxStackPtr, ctxt.basicActions, ctxt.cache
    ensures ctxt.Valid() && ctxt.Settled() && old(ctxt.buffer) <= ctxt.buffer && LocOk(ctxt.buffer, loc)
    ensures |ctxt.buffer| <= |old(ctxt.buffer)| + RulesCost(rules, Length) + BRANCH_SIZE * |rules|
    ensures RulesCost(rules, Scratch) == 0 && old(ctxt.maxStackPtr) < BPF_MEMWORDS ==> ctxt.maxStackPtr < BPF_MEMWORDS
    ensures loc < 0 || loc == |ctxt.buffer| - 1 >= |old(ctxt.buffer)|
    ensures CodesImplement(ctxt.buffer, rules, codes, 0)
    ensures SlotFinds(ctxt.buffer, loc, 0, TWO_32, rules, codes, tests)
    ensures tests == 0 || Pow2(tests - 1) < |rules|
    ensures SlotMeans(ctxt.buffer, loc, 0, TWO_32, rules)
    ensures RulesFit(rules) && Sighted(old(ctxt.buffer)) ==> Sighted(ctxt.buffer)
    ensures DispatchLoses(old(ctxt.buffer), ctxt.buffer, rules)
    ensures loc < 0 <==> exists c :: 0 < c && AllSettled(rules, 0, c)
    ensures loc < 0 ==> AllSettled(rules, 0, -loc) && Left(old(ctxt.buffer), ctxt.buffer, rules, 0)
                        && |ctxt.buffer| <= |old(ctxt.buffer)| + RulesCost(rules, Length)
  {
    var st;
    ghost var b0 := ctxt.buffer;
    st, codes := AddAllRules(ctxt, rules);
    ghost var b := ctxt.buffer;
    OnlyAction(b0, b, st, rules, codes);
    loc, tests := JoinAll(ctxt, st, rules, codes);
    CodesExtend(b, ctxt.buffer, rules, codes, 0);
    FindingDecides(ctxt.buffer, loc, rules, codes, tests);
    SettledDispatch(b0, b, st, rules, loc);
    LastJoinIsSafe(b0, b, st, rules, codes);
    DispatchLosesOn(b0, b, ctxt.buffer, rules);
  }

  /** The code of all rules on the stack, from the last rule to the first. */
  method AddAllRules(ctxt: Context, rules: seq<Rule>) returns (st: seq<Slot>, ghost codes: seq<int>)
    requires ctxt.Valid() && ctxt.Settled() && Partition(rules)
    modifies ctxt`buffer, ctxt`cacheSize, ctxt`maxStackPtr, ctxt.basicActions, ctxt.cache
    ensures ctxt.Valid() && ctxt.Settled()
    ensures RulesCost(rules, Scratch) == 0 && old(ctxt.maxStackPtr) < BPF_MEMWORDS ==> ctxt.maxStackPtr < BPF_MEMWORDS
    ensures Dispatched(old(ctxt.buffer), ctxt.buffer, st, rules, codes, 0)
  {
    st, codes := [], seq(|rules|, _ => 0);
    ghost var b := ctxt.buffer;
    var i := |rules|;
    DispatchStart(b, rules, codes);
    while i > 0
      invariant 0 <= i <= |rules| && ctxt.Valid() && ctxt.Settled()
      invariant Dispatched(b, ctxt.buffer, st, rules, codes, i)
      invariant RulesCost(rules, Scratch) == 0 && old(ctxt.maxStackPtr) < BPF_MEMWORDS ==>
                  ctxt.maxStackPtr < BPF_MEMWORDS
    {
      i := i - 1;
      st, codes := AddRule(ctxt, st, rules, i, codes, b);
    }
  }

  /** One of the last joins; they started with the stack st0 on top of the code b. */
  method JoinLast(ctxt: Context, st: seq<Slot>, ghost rules: seq<Rule>, ghost codes: seq<int>, ghost tests: nat,
                  ghost st0: seq<Slot>, ghost b: seq<Instr>) returns (joined: seq<Slot>, ghost more: nat)
    requires ctxt.Valid() && ctxt.Settled() && |st| >= 2 && NeighboursDiffer(st) && st0 != []
    requires StackCovers(ctxt.buffer, st, 0, rules, codes, tests) && JoinedLast(b, ctxt.buffer, st0, st, rules, tests)
    modifies ctxt`buffer, ctxt`cacheSize, ctxt.basicActions, ctxt.cache
    ensures ctxt.Valid() && ctxt.Settled() && |joined| < |st| && NeighboursDiffer(joined)
    ensures StackCovers(ctxt.buffer, joined, 0, rules, codes, more)
    ensures JoinedLast(b, ctxt.buffer, st0, joined, rules, more)
  {
    ghost var b1 := ctxt.buffer;
    more := st[|st| - 2].level + 1;
    joined := JoinTop(ctxt, st, 0, rules, codes, tests);
    JoinedLastMore(b, b1, ctxt.buffer, st0, st, joined, rules, tests);
  }

  /** Join what is on the stack, the lowest numbers first. The tree is one test taller than its
      tallest slot, if at all. */
  method JoinAll(ctxt: Context, st0: seq<Slot>, ghost rules: seq<Rule>, ghost codes: seq<int>)
    returns (loc: int, ghost tests: nat)
    requires ctxt.Valid() && ctxt.Settled() && st0 != [] && StackReady(ctxt.buffer, st0, 0, rules, codes)
    requires |st0| == 1 ==> st0[0].loc < 0
    modifies ctxt`buffer, ctxt`cacheSize, ctxt.basicActions, ctxt.cache
    ensures ctxt.Valid() && ctxt.Settled() && old(ctxt.buffer) <= ctxt.buffer && LocOk(ctxt.buffer, loc)
    ensures SlotFinds(ctxt.buffer, loc, 0, TWO_32, rules, codes, tests)
    ensures tests == 0 || Pow2(tests - 1) < |rules|
    ensures |ctxt.buffer| <= |old(ctxt.buffer)| + BRANCH_SIZE * |st0|
    ensures if |st0| == 1 then loc == st0[0].loc && ctxt.buffer == old(ctxt.buffer)
            else loc == |ctxt.buffer| - 1 >= |old(ctxt.buffer)|
    ensures Sighted(old(ctxt.buffer)) && (|st0| >= 2 ==> JoinSafe(|old(ctxt.buffer)|, st0)) ==> Sighted(ctxt.buffer)
    ensures LostInDispatch(old(ctxt.buffer), ctxt.buffer, rules)
  {
    ghost var b := ctxt.buffer;
    var st := st0;
    tests := TopLevel(st0);
    while |st| >= 2
      invariant ctxt.Valid() && ctxt.Settled() && NeighboursDiffer(st)
      invariant StackCovers(ctxt.buffer, st, 0, rules, codes, tests)
      invariant JoinedLast(b, ctxt.buffer, st0, st, rules, tests)
      decreases |st|
    {
      st, tests := JoinLast(ctxt, st, rules, codes, tests, st0, b);
    }
    loc := st[0].loc;
    JoinedToOne(ctxt.buffer, st0, st, rules, codes, tests);
  }

  /** Code for one architecture. A dispatch without code is replaced by the default action; that
      happens exactly if the generator settles all rules on one action, and is right exactly if
      all rules agree with the default. */
  method CompileRules(ctxt: Context, rules: seq<Rule>, default: int) returns (next: int)
    requires ctxt.Valid() && ctxt.Settled() && ctxt.buffer == [] && Partition(rules) && ValidAction(default)
    modifies ctxt`buffer, ctxt`cacheSize, ctxt`maxStackPtr, ctxt.basicActions, ctxt.cache
    ensures ctxt.Valid() && ctxt.Settled() && LocOk(ctxt.buffer, next)
    ensures |ctxt.buffer| <= RulesCost(rules, Length) + BRANCH_SIZE * |rules| + 1
    ensures RulesCost(rules, Scratch) == 0 && old(ctxt.maxStackPtr) < BPF_MEMWORDS ==> ctxt.maxStackPtr < BPF_MEMWORDS
    ensures (RulesFit(rules) ==> Sighted(ctxt.buffer)) && DispatchLoses([], ctxt.buffer, rules)
    ensures next < 0 || next == |ctxt.buffer| - 1
    ensures next >= 0 ==> DecidesAll(ctxt.buffer, next, rules)
    ensures next < 0 <==> exists c :: 0 < c && AllSettled(rules, 0, c)
    ensures next < 0 ==> next == -default
    ensures next < 0 ==> Left([], ctxt.buffer, rules, 0) && |ctxt.buffer| <= RulesCost(rules, Length)
    ensures next < 0 ==> (DecidesAll(ctxt.buffer, next, rules) <==> Uniform(rules, default))
  {
    var begin := ctxt.CurrentLoc();
    ghost var codes, tests;
    next, codes, tests := GenerateRules(ctxt, rules);
    if next > begin {
      ghost var b := ctxt.buffer;
      next := AddNrLoad(ctxt, rules);
      LosesNoMore(b, ctxt.buffer, rules);
    } else {
      next := -default;
      ActionDecides(ctxt.buffer, default, rules);
    }
  }

  /** The load of the system call number in front of the dispatch. */
  method AddNrLoad(ctxt: Context, ghost rules: seq<Rule>) returns (next: int)
    requires ctxt.Valid() && ctxt.Settled() && ctxt.buffer != []
    requires SlotMeans(ctxt.buffer, |ctxt.buffer| - 1, 0, TWO_32, rules)
    modifies ctxt`buffer
    ensures ctxt.Valid() && ctxt.Settled() && 0 <= next == |ctxt.buffer| - 1 && LocOk(ctxt.buffer, next)
    ensures |ctxt.buffer| == |old(ctxt.buffer)| + 1 && old(ctxt.buffer) <= ctxt.buffer
    ensures Harmless(old(ctxt.buffer), ctxt.buffer) && DecidesAll(ctxt.buffer, next, rules)
  {
    ghost var b := ctxt.buffer;
    next := ctxt.AddInstruction(LdAbs(OFFSET_NR));
    LoadNrDispatches(b, |b| - 1, rules);
  }

  /** Code for a policy on one audit architecture; body is the code below the load of the
      architecture. With cut offsets read as they were meant, the code always returns, and it is
      right when it starts right and some system call gets the default action. If it starts
      right, it kills all calls on other architectures whatever offsets are lost. It does not
      start right only if the generator settles all rules on KILL and yet some condition has code
      that kills, and as long as that is within reach it does not; it then starts at what the
      conditions have left. */
  method CompileForArch(ctxt: Context, rules: seq<Rule>, default: int, auditArch: u32) returns (ghost body: seq<Instr>)
    requires ctxt.Valid() && ctxt.Settled() && ctxt.buffer == [] && Partition(rules) && ValidAction(default)
    modifies ctxt`buffer, ctxt`cacheSize, ctxt`maxStackPtr, ctxt.basicActions, ctxt.cache
    ensures body != [] && CodeOk(body, ctxt.maxStackPtr) && (ctxt.maxStackPtr == 0 || LdxMem(ctxt.maxStackPtr) in body)
    ensures |ctxt.buffer| <= RulesCost(rules, Length) + BRANCH_SIZE * |rules| + BRANCH_SIZE + 2
    ensures RulesCost(rules, Scratch) == 0 && old(ctxt.maxStackPtr) < BPF_MEMWORDS ==> ctxt.maxStackPtr < BPF_MEMWORDS
    ensures ctxt.buffer == body || ctxt.buffer == body + [LdAbs(OFFSET_ARCH)]
    ensures (RulesFit(rules) ==> Sighted(ctxt.buffer)) && DispatchLoses([], ctxt.buffer, rules)
    ensures Answers(ctxt.buffer)
    ensures StartsRight(ctxt.buffer) ==> KillsElsewhere(ctxt.buffer, auditArch)
    ensures StartsRight(ctxt.buffer) && Occurs(rules, default) ==> Renders(ctxt.buffer, rules, auditArch)
    ensures !StartsRight(ctxt.buffer) ==> StartsAtLeftover(ctxt.buffer, rules, default)
    ensures KillsLeaving(rules, default) && RulesCost(rules, Length) <= MAX_JUMP + 1 ==> !StartsRight(ctxt.buffer)
  {
    var policy := CompileRules(ctxt, rules, default);
    ghost var b := ctxt.buffer;
    PolicyAnswers(b, policy, rules, default);
    if policy != -ACTION_KILL {
      body := CheckArch(ctxt, policy, auditArch, rules);
      if Occurs(rules, default) { CollapsedDecides(b, policy, rules, default); }
    } else {
      KillAtOnce(ctxt);
      body := ctxt.buffer;
      KilledRenders(b, body, rules, default, auditArch);
    }
    LosesNoMore(b, ctxt.buffer, rules);
  }

  /** A policy that kills everything is a single return. It is the first instruction of the
      program exactly if the code so far holds no such return within jump distance; otherwise
      the program starts at code that nothing was meant to reach. */
  method KillAtOnce(ctxt: Context)
    requires ctxt.Valid() && ctxt.Settled()
    modifies ctxt`buffer, ctxt`cacheSize, ctxt.basicActions, ctxt.cache
    ensures ctxt.Valid() && ctxt.buffer != []
    ensures StartsRight(ctxt.buffer) <==> !old(ctxt.RecalledNear(ACTION_KILL))
    ensures KilledAtOnce(old(ctxt.buffer), ctxt.buffer)
  {
    ghost var b, known := ctxt.buffer, ctxt.basicActions[ACTION_KILL];
    assert ReturnsAt(b, known, ACTION_KILL) ==> b[known] == KILL_RETURN;
    var _ := ctxt.ResolveLocation(-ACTION_KILL);
    ghost var top := |ctxt.buffer| - 1;
    assert InstrOk(ctxt.buffer[top], top);
  }

  /** The architecture check in front of the policy's code. */
  method CheckArch(ctxt: Context, policy: int, auditArch: u32, ghost rules: seq<Rule>) returns (ghost body: seq<Instr>)
    requires ctxt.Valid() && ctxt.Settled() && LocOk(ctxt.buffer, policy) && policy != -ACTION_KILL
    requires policy < 0 || policy == |ctxt.buffer| - 1
    requires AnswersAt(ctxt.buffer, policy)
    modifies ctxt`buffer, ctxt`cacheSize, ctxt.basicActions, ctxt.cache
    ensures body != [] && CodeOk(body, ctxt.maxStackPtr) && (ctxt.maxStackPtr == 0 || LdxMem(ctxt.maxStackPtr) in body)
    ensures |ctxt.buffer| <= |old(ctxt.buffer)| + BRANCH_SIZE + 1
    ensures ctxt.buffer == body + [LdAbs(OFFSET_ARCH)] && old(ctxt.buffer) <= ctxt.buffer
    ensures StaysSighted(old(ctxt.buffer), ctxt.buffer)
    ensures Answers(ctxt.buffer) && KillsElsewhere(ctxt.buffer, auditArch)
    ensures DecidesAll(old(ctxt.buffer), policy, rules) ==> Renders(ctxt.buffer, rules, auditArch)
  {
    ghost var b := ctxt.buffer;
    ghost var loc;
    loc := ctxt.AddJump(Jeq, Imm(auditArch), policy, -ACTION_KILL);
    body := ctxt.buffer;
    ctxt.buffer := ctxt.buffer + [LdAbs(OFFSET_ARCH)];
    FilterAnswers(b, body, loc, policy, auditArch);
    FilterKills(body, loc, policy, auditArch);
    if DecidesAll(b, policy, rules) {
      DecidesAllExtends(b, body, policy, rules);
      FilterDecides(body, loc, policy, rules, auditArch);
    }
  }
}
