/** What follows for whole policies: when the program decides every system call as the policy is
    documented to, told from the policy alone. */
module Guarantees {
  import opened Words
  import opened Actions
  import opened Bpf
  import opened Interpreter
  import opened Expression
  import opened CodeSize
  import opened Outlines
  import opened Policy
  import opened Rules
  import opened CodeMeaning
  import opened MappingCode
  import opened Normalise
  import opened RangeRules
  import opened Compiler

  // ----- the documented meaning -----

  /** Every argument that a condition declares narrower than 8 bytes has a zero upper half. */
  predicate NarrowRules(rules: seq<SourceRule>, d: Data) {
    forall k :: 0 <= k < |rules| && rules[k].filter.expr.Some? ==>
      NarrowArgs(rules[k].filter.expr.value, d)
  }

  lemma {:induction false} NarrowMeaning(rules: seq<SourceRule>, d: Data)
    requires NarrowRules(rules, d)
    ensures FirstSource(rules, d, Compiled) == FirstSource(rules, d, Documented)
  {
    if rules != [] {
      NarrowMeaning(rules[..|rules| - 1], d);
      var f := rules[|rules| - 1].filter;
      if f.expr.Some? { CompiledMeaningIsDocumented(f.expr.value, d); }
    }
  }

  /** On inputs with clean narrow arguments, the compiled policy is the documented one: used
      policies pasted in place, the first matching rule taken, 64-bit comparisons. */
  lemma {:induction false} CompiledPolicyIsDocumented(ps: seq<Entries>, main: Entries, default: int, auditArch: u32,
                                                      d: Data)
    requires DefinedBeforeUse(ps) && PoliciesOk(ps) && EntriesOk(main, |ps|)
    requires NarrowRules(Expand(ps, main, {}).0, d)
    ensures Expected(Expand(ps, main, {}).0, default, auditArch, d, Compiled)
         == Expected(Paste(ps, main, |ps|), default, auditArch, d, Documented)
  {
    NarrowMeaning(Expand(ps, main, {}).0, d);
    UseIsPaste(ps, main, d, Documented);
  }

  // ----- what the rules say decides -----

  lemma {:induction false} AddedSingleNumbers(source: seq<SourceRule>)
    ensures forall x :: x in Added([], source) ==> x.first == x.last
  {
    if source != [] { AddedSingleNumbers(source[..|source| - 1]); }
  }

  /** What the rules say about a number decides its calls. */
  lemma SaysDecide(source: seq<SourceRule>, default: int, d: Data)
    requires ActionsOk(source)
    ensures SayAction(SaysOf(source, d.nr, default), d) == Some(Decision(source, default, d, Compiled))
  {
    var added := Added([], source);
    AddedDecides([], source, d);
    AddedSingleNumbers(source);
    ToldDecides(added, d);
    FinishedDecides(OrAct(ToldOf(added, d.nr), default), default, d);
  }

  lemma {:induction false} UnnamedUntold(source: seq<SourceRule>, nr: u32)
    requires Unnamed(source, nr)
    ensures ToldOf(Added([], source), nr) == None
  {
    if source != [] {
      var init := source[..|source| - 1];
      UnnamedUntold(init, nr);
      var rule := RuleFor(source[|source| - 1]);
      if rule.Some? { ToldOfSnoc(Added([], init), rule.value.(priority := |Added([], init)| + 1), nr); }
    }
  }

  /** All numbers can only be settled on the default action, and then every call gets it. */
  lemma SettledOnDefault(source: seq<SourceRule>, default: int, c: int, d: Data)
    requires ActionsOk(source) && SomeUnnamed(source) && SettledOn(source, default, c)
    ensures Decision(source, default, d, Compiled) == c == default
  {
    var nr: u32 :| Unnamed(source, nr);
    UnnamedUntold(source, nr);
    assert Settled(SaysOf(source, nr, default)) == Some(c);
    SaysDecide(source, default, d);
    SettledSound(SaysOf(source, d.nr, default), d);
  }

  /** If some call is not killed, the program starts right. */
  lemma SparedStartsRight(source: seq<SourceRule>, default: int)
    requires ActionsOk(source) && SomeUnnamed(source) && SomeSpared(source, default)
    ensures !DeadEntry(source, default)
  {
    if DeadEntry(source, default) {
      var c :| 0 < c && SettledOn(source, default, c);
      var d :| Decision(source, default, d, Compiled) != ACTION_KILL;
      SettledOnDefault(source, default, c, d);
    }
  }

  // ----- conditions that constants do not settle -----

  predicate Generable(ms: seq<Mapping>) {
    forall k :: 0 <= k < |ms| ==> if ms[k].cond.Some? then NoTruthNode(ms[k].cond.value) else k == |ms| - 1
  }

  /** If constants settle no comparison, conditions with code are not settled either. */
  lemma {:induction false} OpenLeavesNothing(ms: seq<Mapping>)
    requires Generable(ms) && MappingsCost(ms, Loose) == 0 && SettledAction(ms).Some?
    ensures !LeavesCode(ms) && !LeavesKill(ms)
  {
    if |ms| > 1 {
      if ms[0].cond.Some? { OpenBranches(ms[0].cond.value); }
      if SettledAction(ms[1..]).Some? { OpenLeavesNothing(ms[1..]); }
    }
  }

  predicate RawRules(rules: seq<Rule>) {
    forall k :: 0 <= k < |rules| ==> RawRule(rules[k])
  }

  function Exprs(say: Option<Say>): seq<Mapping> {
    if say.Some? && say.value.Ask? then say.value.exprs else []
  }

  lemma {:induction false} ToldGenerable(rules: seq<Rule>, nr: u32)
    requires RawRules(rules)
    ensures Generable(Exprs(ToldOf(rules, nr)))
  {
    if rules != [] { ToldGenerable(rules[..|rules| - 1], nr); }
  }

  /** Without counting what other numbers cost. */
  lemma {:induction false} ToldCosts(rules: seq<Rule>, nr: u32, limit: Limit)
    requires RawRules(rules) && !limit.At?
    ensures MappingsCost(Exprs(ToldOf(rules, nr)), limit) <= RulesCost(rules, limit)
  {
    if rules != [] {
      var init, last := rules[..|rules| - 1], rules[|rules| - 1];
      ToldCosts(init, nr, limit);
      var before := Exprs(ToldOf(init, nr));
      if last.IsConditional() {
        MappingsCostAppend(before, last.exprs, limit);
      } else {
        AddExprCosts(before, last.action, limit);
      }
    }
  }

  lemma {:induction false} AddedRaw(source: seq<SourceRule>)
    requires ActionsOk(source)
    ensures RawRules(Added([], source))
  {
    if source != [] {
      var init, last := source[..|source| - 1], source[|source| - 1];
      AddedRaw(init);
      if last.filter.expr.Some? { SimplifiedIsGenerable(last.filter.expr.value); }
    }
  }

  /** What the rules say about a number, with its conditions, costs no more than all rules. */
  lemma {:induction false} ToldIsOpen(source: seq<SourceRule>, nr: u32)
    requires ActionsOk(source) && SourcesCost(source, Loose) == 0
    ensures var told := Exprs(ToldOf(Added([], source), nr)); Generable(told) && MappingsCost(told, Loose) == 0
  {
    AddedRaw(source);
    AddedCosts([], source, Loose);
    ToldCosts(Added([], source), nr, Loose);
    ToldGenerable(Added([], source), nr);
  }

  lemma FinishedIsOpen(told: Option<Say>, default: int)
    requires Generable(Exprs(told)) && MappingsCost(Exprs(told), Loose) == 0
    ensures var say := Finished(OrAct(told, default), default);
            say.Ask? ==> Generable(say.exprs) && MappingsCost(say.exprs, Loose) == 0
  {
    AddExprCosts(Exprs(told), default, Loose);
  }

  /** Where the generator settles a number, no condition for it has left code that kills. */
  lemma {:induction false} OpenKillsNothing(source: seq<SourceRule>, default: int, nr: u32)
    requires ActionsOk(source) && SourcesCost(source, Loose) == 0 && Settled(SaysOf(source, nr, default)).Some?
    ensures !LeavesKilling(SaysOf(source, nr, default))
  {
    ToldIsOpen(source, nr);
    FinishedIsOpen(ToldOf(Added([], source), nr), default);
    if LeavesKilling(SaysOf(source, nr, default)) { OpenLeavesNothing(SaysOf(source, nr, default).exprs); }
  }

  lemma {:induction false} OpenStartsRight(source: seq<SourceRule>, default: int)
    requires ActionsOk(source) && SourcesCost(source, Loose) == 0
    ensures !DeadEntry(source, default)
  {
    if DeadEntry(source, default) {
      var nr: u32 :| LeavesKilling(SaysOf(source, nr, default));
      var c :| 0 < c && SettledOn(source, default, c);
      assert Settled(SaysOf(source, nr, default)) == Some(c);
      OpenKillsNothing(source, default, nr);
    }
  }

  // ----- whole policies -----

  /** The code left on top, if the program starts there, happens to kill everything. */
  ghost predicate EntryKills(source: seq<SourceRule>, default: int) {
    DeadEntry(source, default) ==> forall nr: u32, d: Data ::
      FirstLeft(source, default, nr) ==> Leftover(SaysOf(source, nr, default), d) == Some(ACTION_KILL)
  }

  /** The program is not too long, no condition is too deep, and no offset is lost. */
  ghost predicate WithinLimits(source: seq<SourceRule>) {
    && LengthBound(source) <= 65535 && !TooDeep(source)
    && (OffsetsFit(source) || LengthBound(source) <= 259)
  }

  /** A policy within the limits always compiles, and the program decides every system call as the
      policy does exactly if it does not start at code that fails to kill. */
  lemma PolicyImplemented(res: CompileResult, source: seq<SourceRule>, default: int, auditArch: u32)
    requires Compiles(res, source, default, auditArch) && ActionsOk(source) && WithinLimits(source)
    ensures res.Program?
    ensures Compiler.Implements(res.prog, source, default, auditArch) <==> EntryKills(source, default)
  {
    FewRulesLeaveUnnamed(source);
    if DeadEntry(source, default) {
      if SourcesCost(source, Loose) == 0 { OpenStartsRight(source, default); }
      DeadEntryImplements(res.prog, source, default, auditArch);
    }
  }

  lemma DeadEntryImplements(prog: seq<Instr>, source: seq<SourceRule>, default: int, auditArch: u32)
    requires ActionsOk(source) && SomeUnnamed(source) && DeadEntry(source, default) && Sighted(prog)
    requires forall nr: u32 :: FirstLeft(source, default, nr) ==> EntersAt(prog, source, default, nr)
    ensures Compiler.Implements(prog, source, default, auditArch) <==> EntryKills(source, default)
  {
    var some: u32 :| LeavesKilling(SaysOf(source, some, default));
    KillingLeaves(SaysOf(source, some, default).exprs);
    var nr := FirstLeftExists(source, default, some);
    var c :| 0 < c && SettledOn(source, default, c);
    forall r: Regs, d: Data
      ensures Expected(source, default, auditArch, d, Compiled) == Returned(SECCOMP_RET_KILL)
      ensures Interpret(AsIs, prog, 0, r, d) == CodeOf(Leftover(SaysOf(source, nr, default), d))
    {
      SettledOnDefault(source, default, c, d);
      assert EntersAt(prog, source, default, nr);
      SightedGives(prog, r, d, CodeOf(Leftover(SaysOf(source, nr, default), d)));
    }
    forall other: u32 | FirstLeft(source, default, other) ensures other == nr {
    }
    forall d: Data
      ensures CodeOf(Leftover(SaysOf(source, nr, default), d)) == Returned(SECCOMP_RET_KILL)
         <==> Leftover(SaysOf(source, nr, default), d) == Some(ACTION_KILL)
    {
      OnlyKillKills(Leftover(SaysOf(source, nr, default), d));
    }
    if Compiler.Implements(prog, source, default, auditArch) {
      forall d: Data ensures Leftover(SaysOf(source, nr, default), d) == Some(ACTION_KILL) {
        assert Interpret(AsIs, prog, 0, Regs(0, 0, map[]), d) == Expected(source, default, auditArch, d, Compiled);
      }
    }
  }

  lemma OnlyKillKills(action: Option<int>)
    ensures CodeOf(action) == Returned(SECCOMP_RET_KILL) <==> action == Some(ACTION_KILL)
  {
    if action.Some? && ValidAction(action.value) && CodeOf(action) == Returned(SECCOMP_RET_KILL) {
      ActionToBpfInjective(action.value, ACTION_KILL);
    }
  }

  lemma {:induction false} KillingLeaves(ms: seq<Mapping>)
    requires LeavesKill(ms)
    ensures LeavesCode(ms)
  {
    if !Emits(ms) { KillingLeaves(ms[1..]); }
  }

  /** What is left to the limits on offsets when the others are met: every program that starts right
      does what the policy is documented to do on every call, from any registers, as long as the
      run is not misled by a branch with equal offsets; and the misled runs were meant to. Calls on
      other architectures are killed in any case. */
  lemma {:induction false} PolicyIsMeant(res: CompileResult, ps: seq<Entries>, main: Entries, default: int,
                                         auditArch: u32)
    requires DefinedBeforeUse(ps) && PoliciesOk(ps) && EntriesOk(main, |ps|)
    requires Compiles(res, Expand(ps, main, {}).0, default, auditArch)
    requires var rules := Expand(ps, main, {}).0;
             && LengthBound(rules) <= 65535 && !TooDeep(rules)
             && (SomeSpared(rules, default) || SourcesCost(rules, Loose) == 0)
    ensures res.Program? && KillsOtherArchs(res.prog, auditArch)
    ensures forall r: Regs, d: Data :: NarrowRules(Expand(ps, main, {}).0, d) ==>
              Gives(res.prog, r, d, Expected(Paste(ps, main, |ps|), default, auditArch, d, Documented))
  {
    var rules := Expand(ps, main, {}).0;
    ExpandedActions(ps, main, {});
    FewRulesLeaveUnnamed(rules);
    if SomeSpared(rules, default) { SparedStartsRight(rules, default); } else { OpenStartsRight(rules, default); }
    assert MeantToImplement(res.prog, rules, default, auditArch);
    forall r: Regs, d: Data | NarrowRules(rules, d)
      ensures Gives(res.prog, r, d, Expected(Paste(ps, main, |ps|), default, auditArch, d, Documented))
    {
      CompiledPolicyIsDocumented(ps, main, default, auditArch, d);
      assert Gives(res.prog, r, d, Expected(rules, default, auditArch, d, Compiled));
    }
  }

  /** A policy within the limits that spares some call, or whose comparisons are not settled by
      constants, compiles to a program that decides every system call with clean narrow arguments
      as the policy is documented to. */
  lemma {:induction false} PolicyIsDocumented(res: CompileResult, ps: seq<Entries>, main: Entries, default: int,
                                              auditArch: u32)
    requires DefinedBeforeUse(ps) && PoliciesOk(ps) && EntriesOk(main, |ps|)
    requires Compiles(res, Expand(ps, main, {}).0, default, auditArch)
    requires var rules := Expand(ps, main, {}).0;
             WithinLimits(rules) && (SomeSpared(rules, default) || SourcesCost(rules, Loose) == 0)
    ensures res.Program?
    ensures forall r: Regs, d: Data :: NarrowRules(Expand(ps, main, {}).0, d) ==>
              Interpret(AsIs, res.prog, 0, r, d) == Expected(Paste(ps, main, |ps|), default, auditArch, d, Documented)
  {
    PolicyIsMeant(res, ps, main, default, auditArch);
    forall r: Regs, d: Data | NarrowRules(Expand(ps, main, {}).0, d)
      ensures Interpret(AsIs, res.prog, 0, r, d)
           == Expected(Paste(ps, main, |ps|), default, auditArch, d, Documented)
    {
      SightedGives(res.prog, r, d, Expected(Paste(ps, main, |ps|), default, auditArch, d, Documented));
    }
  }

  /** The number a program returns, for every action a policy can decide on. */
  lemma {:induction false} ReturnedCodes(prog: seq<Instr>, source: seq<SourceRule>, default: int, auditArch: u32,
                                         r: Regs, d: Data)
    requires ActionsOk(source) && ValidAction(default)
    requires Gives(prog, r, d, Expected(source, default, auditArch, d, Compiled)) && !Misled(prog, 0, r, d)
    ensures exists code: u32 :: Interpret(AsIs, prog, 0, r, d) == Returned(code)
              && TreatmentOf(code)
                 == if d.arch == auditArch then Purpose(Decision(source, default, d, Compiled)) else KillThread
  {
    var action := if d.arch == auditArch then Decision(source, default, d, Compiled) else ACTION_KILL;
    DecisionValid(source, default, d);
    CodeServesPurpose(action);
    assert Interpret(AsIs, prog, 0, r, d) == Returned(ActionToBpf(action));
  }

  lemma {:induction false} DecisionValid(source: seq<SourceRule>, default: int, d: Data)
    requires ActionsOk(source) && ValidAction(default)
    ensures ValidAction(Decision(source, default, d, Compiled))
  {
    if source != [] { DecisionValid(source[..|source| - 1], default, d); }
  }

  /** A decision for ERRNO with a value, say, is 5 in the upper half and the value in the lower. */
  lemma {:induction false} ErrnoReturned(prog: seq<Instr>, source: seq<SourceRule>, default: int, auditArch: u32,
                                         value: int, r: Regs, d: Data)
    requires 0 <= value <= 0xffff && d.arch == auditArch
    requires Decision(source, default, d, Compiled) == ACTION_ERRNO + value
    requires Gives(prog, r, d, Expected(source, default, auditArch, d, Compiled)) && !Misled(prog, 0, r, d)
    ensures Interpret(AsIs, prog, 0, r, d) == Returned(0x5_0000 + value)
  {
    ValueCodes(value);
  }

  // ----- limits told from the policy as written -----

  /** Nodes of all conditions. */
  function AllNodes(source: seq<SourceRule>): nat {
    if source == [] then 0
    else
      var expr := source[|source| - 1].filter.expr;
      AllNodes(source[..|source| - 1]) + if expr.Some? then Nodes(expr.value) else 0
  }

  /** Bitwise operations are nested at most fifteen deep. */
  predicate Shallow(source: seq<SourceRule>) {
    forall k :: 0 <= k < |source| && source[k].filter.expr.Some? ==> NestedWithin(source[k].filter.expr.value, 15)
  }

  lemma {:induction false} CostByNodes(source: seq<SourceRule>)
    ensures SourcesCost(source, Length) <= 7 * AllNodes(source)
    ensures Shallow(source) ==> SourcesCost(source, Scratch) == 0
  {
    if source != [] {
      var expr := source[|source| - 1].filter.expr;
      CostByNodes(source[..|source| - 1]);
      if expr.Some? {
        SimplifyShrinks(expr.value, 15);
        SizeByNodes(Simplify(expr.value));
        if Shallow(source) { SlotsByNesting(Simplify(expr.value), 15); }
      }
    }
  }

  /** Eight instructions for a rule, seven for a node of a condition, and ten more: if that is at most
      65535, as it is for 8190 rules without conditions, the policy compiles. With no more than
      eighteen nodes no offset is lost, however many rules there are. */
  lemma {:induction false} SmallPolicyCompiles(res: CompileResult, source: seq<SourceRule>, default: int,
                                               auditArch: u32)
    requires Compiles(res, source, default, auditArch) && Shallow(source)
    requires 8 * |source| + 7 * AllNodes(source) + 10 <= 65535
    ensures res.Program? && |res.prog| <= 8 * |source| + 7 * AllNodes(source) + 10
    ensures AllNodes(source) <= 18 ==> Sighted(res.prog)
  {
    CostByNodes(source);
  }

  lemma {:induction false} NoConditionsNoNodes(source: seq<SourceRule>)
    requires forall k :: 0 <= k < |source| ==> source[k].filter.expr.None?
    ensures AllNodes(source) == 0 && SourcesCost(source, Loose) == 0
  {
    if source != [] { NoConditionsNoNodes(source[..|source| - 1]); }
  }

  /** A policy of at most 8190 rules without conditions always compiles, and the program decides every
      call as the policy does, without exception. */
  lemma UnconditionalPolicy(res: CompileResult, source: seq<SourceRule>, default: int, auditArch: u32)
    requires Compiles(res, source, default, auditArch) && ActionsOk(source) && |source| <= 8190
    requires forall k :: 0 <= k < |source| ==> source[k].filter.expr.None?
    ensures res.Program? && Compiler.Implements(res.prog, source, default, auditArch)
  {
    NoConditionsNoNodes(source);
    SmallPolicyCompiles(res, source, default, auditArch);
    FewRulesLeaveUnnamed(source);
    OpenStartsRight(source, default);
  }
}
