/** The policy compiler from parsed policies to a BPF program, and what the program decides. */
module Compiler {
  import opened Words
  import opened Sets
  import opened Actions
  import opened Bpf
  import opened Interpreter
  import opened CodeSize
  import opened Outlines
  import opened Policy
  import opened Rules
  import opened CodeMeaning
  import opened MappingCode
  import opened SlotReach
  import opened Collapse
  import opened FilterCode
  import opened Normalise
  import opened RangeRules
  import Emitter
  import RuleCode

  const USHRT_MAX: int := 65535

  datatype CompileResult =
    | Program(prog: seq<Instr>)
    | StackTooDeep
    | TooLong

  // ----- what a policy decides -----

  /** The action of the first matching rule, or the default action. */
  function Decision(rules: seq<SourceRule>, default: int, d: Data, m: Meaning): int {
    OrDefault(FirstSource(rules, d, m), default)
  }

  /** What a filter for the rules must return: KILL on any other architecture. */
  function Expected(rules: seq<SourceRule>, default: int, auditArch: u32, d: Data, m: Meaning): Outcome {
    CodeOf(Some(if d.arch == auditArch then Decision(rules, default, d, m) else ACTION_KILL))
  }

  /** No rule names this system call. */
  predicate Unnamed(rules: seq<SourceRule>, nr: u32) {
    forall k :: 0 <= k < |rules| ==> rules[k].filter.nr != nr
  }

  ghost predicate SomeUnnamed(rules: seq<SourceRule>) {
    exists nr: u32 :: Unnamed(rules, nr)
  }

  /** Some system call is not killed. */
  ghost predicate SomeSpared(rules: seq<SourceRule>, default: int) {
    exists d :: Decision(rules, default, d, Compiled) != ACTION_KILL
  }

  lemma {:induction false} UnnamedUnmatched(rules: seq<SourceRule>, d: Data, m: Meaning)
    requires Unnamed(rules, d.nr)
    ensures FirstSource(rules, d, m) == None
  {
    if rules != [] { UnnamedUnmatched(rules[..|rules| - 1], d, m); }
  }

  /** There are 2^32 system call numbers, so fewer rules cannot name them all. */
  lemma FewRulesLeaveUnnamed(rules: seq<SourceRule>)
    requires |rules| < TWO_32
    ensures SomeUnnamed(rules)
  {
    var nrs: seq<int> := seq(|rules|, k requires 0 <= k < |rules| => rules[k].filter.nr);
    var x := SomeMissing(nrs, TWO_32);
    var nr: u32 := x;
    forall k | 0 <= k < |rules| ensures rules[k].filter.nr != nr {
      assert nrs[k] in nrs;
    }
    assert Unnamed(rules, nr);
  }

  // ----- what is promised of the program -----

  /** The first instruction checks the architecture, or returns at once. */
  predicate StartsAtCheck(prog: seq<Instr>) {
    prog != [] && (prog[0] == LdAbs(OFFSET_ARCH) || prog[0].Ret?)
  }

  /** From these registers the program has this outcome, unless it comes to a branch with equal
      offsets whose test fails; and it was meant to have it in any case. */
  ghost predicate Gives(prog: seq<Instr>, r: Regs, d: Data, res: Outcome) {
    && Interpret(AsMeant, prog, 0, r, d) == res
    && (!Misled(prog, 0, r, d) ==> Interpret(AsIs, prog, 0, r, d) == res)
  }

  lemma {:induction false} GivesAsMeant(prog: seq<Instr>, r: Regs, d: Data)
    ensures Gives(prog, r, d, Interpret(AsMeant, prog, 0, r, d))
  {
    if !Misled(prog, 0, r, d) { RunsAsMeant(prog, 0, r, d); }
  }

  lemma {:induction false} SightedGives(prog: seq<Instr>, r: Regs, d: Data, res: Outcome)
    requires Sighted(prog) && Gives(prog, r, d, res)
    ensures Interpret(AsIs, prog, 0, r, d) == res
  {
    NeverMisled(prog, 0, r, d);
  }

  /** It returns on every input, from any registers and with scratch words that may be unreadable
      until written. */
  ghost predicate AlwaysReturns(prog: seq<Instr>) {
    forall r: Regs, d: Data :: Interpret(AsIs, prog, 0, r, d).Returned?
  }

  /** It was meant to return, and does so unless it is misled. */
  ghost predicate MeantToReturn(prog: seq<Instr>) {
    forall r: Regs, d: Data ::
      Interpret(AsMeant, prog, 0, r, d).Returned? && Gives(prog, r, d, Interpret(AsMeant, prog, 0, r, d))
  }

  /** Calls on any other architecture are killed. */
  ghost predicate KillsOtherArchs(prog: seq<Instr>, auditArch: u32) {
    forall r: Regs, d: Data :: d.arch != auditArch ==>
      Interpret(AsIs, prog, 0, r, d) == Returned(SECCOMP_RET_KILL)
  }

  /** A branch with equal offsets goes on with the next instruction in any case. That is a jump to
      its first target, as is the one after it; the second target was meant to be 256 further on. */
  predicate OffsetLost(prog: seq<Instr>, pc: nat)
    requires pc < |prog| && prog[pc].IsBranch()
  {
    && pc + 259 < |prog| && prog[pc].jt == prog[pc].jf == 0
    && prog[pc + 1].Ja? && prog[pc + 2].Ja? && prog[pc + 1].skip == prog[pc + 2].skip + 1 > 256
  }

  predicate OffsetsLostFar(prog: seq<Instr>) {
    forall pc :: 0 <= pc < |prog| && prog[pc].IsBlind() ==> OffsetLost(prog, pc)
  }

  /** The only branches with equal offsets are tests of the system call number, where a range starts
      that stands for the policy. */
  ghost predicate LostToDispatch(prog: seq<Instr>, rules: seq<SourceRule>, default: int) {
    exists ranges :: RangesOf(ranges, rules, default)
                     && forall pc :: 0 <= pc < |prog| && prog[pc].IsBlind() ==> TestsNumber(prog[pc], ranges)
  }

  predicate NeedsMoreSlots(code: seq<Instr>) {
    exists i :: 0 <= i < |code| && code[i].LdxMem? && code[i].slot >= BPF_MEMWORDS
  }

  /** The program that comes of emitted code. */
  function Finish(code: seq<Instr>): CompileResult {
    if NeedsMoreSlots(code) then StackTooDeep
    else if |code| > USHRT_MAX then TooLong
    else Program(Reverse(code))
  }

  /** The program decides every system call like the policy, from any registers and with
      scratch words that may be unreadable until written. */
  ghost predicate Implements(prog: seq<Instr>, rules: seq<SourceRule>, default: int, auditArch: u32) {
    forall r: Regs, d: Data :: Interpret(AsIs, prog, 0, r, d) == Expected(rules, default, auditArch, d, Compiled)
  }

  /** The same of every run that is not misled, and of what the others were meant to do. */
  ghost predicate MeantToImplement(prog: seq<Instr>, rules: seq<SourceRule>, default: int, auditArch: u32) {
    forall r: Regs, d: Data :: Gives(prog, r, d, Expected(rules, default, auditArch, d, Compiled))
  }

  /** An upper bound for the length of the program: per rule, its simplified condition and a
      branch each for the range of its number and for the gap before it. */
  function LengthBound(rules: seq<SourceRule>): nat {
    SourcesCost(rules, Length) + BRANCH_SIZE * (2 * |rules| + 1) + BRANCH_SIZE + 2
  }

  /** Some simplified condition needs more scratch words than there are. */
  predicate TooDeep(rules: seq<SourceRule>) {
    SourcesCost(rules, Scratch) > 0
  }

  /** The conditions take at most 127 instructions altogether; or no comparison in them is settled by
      constants, and those of each number take at most 127 instructions, or there is only one number
      with conditions. */
  ghost predicate OffsetsFit(rules: seq<SourceRule>) {
    || SourcesCost(rules, Length) <= 127
    || (SourcesCost(rules, Loose) == 0
        && forall a: u32, b: u32 :: a != b && SourcesCost(rules, At(b)) > 0 ==> SourcesCost(rules, At(a)) <= 127)
  }

  // ----- what the compiler makes of a policy before it generates code -----

  /** What the rules say about a number together, with the default action last. */
  function SaysOf(rules: seq<SourceRule>, nr: u32, default: int): Say {
    Finished(OrAct(ToldOf(Added([], rules), nr), default), default)
  }

  /** The ranges say what the policy says, decide like the policy, cost no more, and are as wide as
      they can be. */
  ghost predicate RangesOf(ranges: seq<Rule>, source: seq<SourceRule>, default: int) {
    && Partition(ranges) && Coarse(ranges, default) && |ranges| <= 2 * |source| + 1
    && (forall limit :: RulesCost(ranges, limit) <= SourcesCost(source, limit))
    && (forall nr: u32 :: SayOf(ranges, nr) == Some(SaysOf(source, nr, default)))
    && forall d :: FirstMatch(ranges, d) == Some(Decision(source, default, d, Compiled))
  }

  /** The normalised ranges of a policy. */
  method CollectRanges(ps: seq<Entries>, entries: Entries, default: int) returns (ranges: seq<Rule>)
    requires PoliciesOk(ps) && EntriesOk(entries, |ps|) && ValidAction(default)
    ensures RangesOf(ranges, Expand(ps, entries, {}).0, default)
  {
    var rules := new RuleArray();
    var _ := rules.AddPolicyRules(ps, entries);
    ghost var added := rules.Rules();
    rules.NormalizeRules(default);
    ranges := rules.data[..rules.len];
    ExpandedActions(ps, entries, {});
    CollectedRanges(ranges, added, Expand(ps, entries, {}).0, default);
  }

  lemma {:induction false} CollectedRanges(ranges: seq<Rule>, added: seq<Rule>, source: seq<SourceRule>, default: int)
    requires added == Added([], source) && ActionsOk(source) && Normalised(ranges, added, default)
    requires |ranges| <= 2 * |added| + 1
    requires forall d :: FirstMatch(ranges, d) == Some(Decide(added, d, default))
    ensures RangesOf(ranges, source, default)
  {
    AddedCosts([], source, Length);
    forall limit ensures RulesCost(ranges, limit) <= SourcesCost(source, limit) {
      AddedCosts([], source, limit);
    }
    forall d ensures FirstMatch(ranges, d) == Some(Decision(source, default, d, Compiled)) {
      AddedDecides([], source, d);
    }
  }

  /** Small conditions of the policy are small conditions of its ranges. */
  lemma FitsInRanges(source: seq<SourceRule>, ranges: seq<Rule>, default: int)
    requires OffsetsFit(source) && RangesOf(ranges, source, default)
    ensures RulesFit(ranges)
  {
    if RulesCost(ranges, Loose) == 0 {
      forall i, j | 0 <= i < |ranges| && 0 <= j < |ranges| && i != j && RuleCost(ranges[j], Length) > 0
        ensures RuleCost(ranges[i], Length) <= ROOM
      {
        RulesCostEach(ranges, i, Length);
        RuleCostsSource(ranges, source, default, i);
        RuleCostsSource(ranges, source, default, j);
        RangesDiffer(ranges, i, j);
      }
    }
  }

  lemma {:induction false} RuleCostsSource(ranges: seq<Rule>, source: seq<SourceRule>, default: int, i: nat)
    requires RangesOf(ranges, source, default) && i < |ranges|
    ensures RuleCost(ranges[i], Length) <= SourcesCost(source, At(ranges[i].first))
  {
    RulesCostEach(ranges, i, At(ranges[i].first));
    MappingsCostAt(ranges[i].exprs, ranges[i].first);
  }

  lemma RangesDiffer(ranges: seq<Rule>, i: nat, j: nat)
    requires Partition(ranges) && i < |ranges| && j < |ranges| && i != j
    ensures ranges[i].first != ranges[j].first
  {
    ContiguousIsAscending(ranges);
    assert Total(ranges[i]) && Total(ranges[j]);
    if i < j { AscendingPair(ranges, i, j); } else { AscendingPair(ranges, j, i); }
  }

  // ----- policies that the generator settles -----

  /** The generator settles every number on this action. */
  ghost predicate SettledOn(rules: seq<SourceRule>, default: int, action: int) {
    forall nr: u32 :: Settled(SaysOf(rules, nr, default)) == Some(action)
  }

  /** For some number there is code that returns KILL. */
  ghost predicate SomeKilling(rules: seq<SourceRule>, default: int) {
    exists nr: u32 :: LeavesKilling(SaysOf(rules, nr, default))
  }

  /** The default is KILL, the generator settles all numbers on one action, and yet there is code that
      returns KILL: the program starts at code that nothing was meant to reach. */
  ghost predicate DeadEntry(rules: seq<SourceRule>, default: int) {
    default == ACTION_KILL && (exists c :: 0 < c && SettledOn(rules, default, c)) && SomeKilling(rules, default)
  }

  /** The first number whose conditions have left code. */
  ghost predicate FirstLeft(rules: seq<SourceRule>, default: int, nr: u32) {
    && Leaves(SaysOf(rules, nr, default))
    && forall below: u32 :: below < nr ==> !Leaves(SaysOf(rules, below, default))
  }

  /** The code left for this number decides every call. */
  ghost predicate EntersAt(prog: seq<Instr>, rules: seq<SourceRule>, default: int, nr: u32) {
    forall r: Regs, d: Data :: Gives(prog, r, d, CodeOf(Leftover(SaysOf(rules, nr, default), d)))
  }

  lemma RangeSays(ranges: seq<Rule>, source: seq<SourceRule>, default: int, k: nat, nr: u32)
    requires RangesOf(ranges, source, default) && k < |ranges| && ranges[k].Covers(nr)
    ensures ranges[k].Says() == SaysOf(source, nr, default)
  {
    ContiguousIsAscending(ranges);
    AscendingSays(ranges, k, nr);
  }

  lemma SettledRanges(ranges: seq<Rule>, source: seq<SourceRule>, default: int, c: int)
    requires RangesOf(ranges, source, default)
    ensures AllSettled(ranges, 0, c) <==> SettledOn(source, default, c)
  {
    if AllSettled(ranges, 0, c) {
      forall nr: u32 ensures Settled(SaysOf(source, nr, default)) == Some(c) {
        var k := CoveringRule(ranges, nr);
        RangeSays(ranges, source, default, k, nr);
      }
    }
    if SettledOn(source, default, c) {
      forall k | 0 <= k < |ranges| ensures Settled(ranges[k].Says()) == Some(c) {
        assert Total(ranges[k]);
        RangeSays(ranges, source, default, k, ranges[k].first);
      }
    }
  }

  lemma {:induction false} KillingRange(ranges: seq<Rule>, i: nat) returns (k: nat)
    requires LeftKill(ranges, i)
    ensures i <= k < |ranges| && LeavesKilling(ranges[k].Says())
    decreases |ranges| - i
  {
    k := i;
    if !LeavesKilling(ranges[i].Says()) { k := KillingRange(ranges, i + 1); }
  }

  lemma {:induction false} RangeKilling(ranges: seq<Rule>, i: nat, k: nat)
    requires i <= k < |ranges| && LeavesKilling(ranges[k].Says())
    ensures LeftKill(ranges, i)
    decreases |ranges| - i
  {
    if i < k { RangeKilling(ranges, i + 1, k); }
  }

  lemma {:induction false} KillingRanges(ranges: seq<Rule>, source: seq<SourceRule>, default: int)
    requires RangesOf(ranges, source, default)
    ensures LeftKill(ranges, 0) <==> SomeKilling(source, default)
  {
    if LeftKill(ranges, 0) {
      var k := KillingRange(ranges, 0);
      assert Total(ranges[k]);
      RangeSays(ranges, source, default, k, ranges[k].first);
    }
    if SomeKilling(source, default) {
      var nr: u32 :| LeavesKilling(SaysOf(source, nr, default));
      var k := CoveringRule(ranges, nr);
      RangeSays(ranges, source, default, k, nr);
      RangeKilling(ranges, 0, k);
    }
  }

  /** The code left on top is that of the first number with any. */
  lemma {:induction false} TopOfRanges(ranges: seq<Rule>, source: seq<SourceRule>, default: int, i: nat, nr: u32,
                                       d: Data)
    requires RangesOf(ranges, source, default) && FirstLeft(source, default, nr)
    requires i < |ranges| && ranges[i].first <= nr
    ensures LeftTop(ranges, i, d) == Leftover(SaysOf(source, nr, default), d)
    decreases |ranges| - i
  {
    assert Total(ranges[i]);
    RangeSays(ranges, source, default, i, ranges[i].first);
    if nr <= ranges[i].last {
      RangeSays(ranges, source, default, i, nr);
    } else {
      TopOfRanges(ranges, source, default, i + 1, nr, d);
    }
  }

  /** If any number has left code, there is a first one. */
  lemma {:induction false} FirstLeftExists(source: seq<SourceRule>, default: int, some: u32) returns (nr: u32)
    requires Leaves(SaysOf(source, some, default))
    ensures FirstLeft(source, default, nr)
    decreases some
  {
    if below: u32 :| below < some && Leaves(SaysOf(source, below, default)) {
      nr := FirstLeftExists(source, default, below);
    } else {
      nr := some;
    }
  }

  // ----- the compiler -----

  /** What is promised of compiling these rules. */
  ghost predicate Compiles(res: CompileResult, rules: seq<SourceRule>, default: int, auditArch: u32) {
    match res
    case StackTooDeep => TooDeep(rules)
    case TooLong => LengthBound(rules) > 65535
    case Program(prog) => CompiledFrom(prog, rules, default, auditArch)
  }

  /** What is promised of a program compiled from these rules. */
  ghost predicate CompiledFrom(prog: seq<Instr>, rules: seq<SourceRule>, default: int, auditArch: u32) {
    && Safe(prog) && |prog| <= 65535 && |prog| <= LengthBound(rules)
    && MeantToReturn(prog)
    && (StartsAtCheck(prog) ==> KillsOtherArchs(prog, auditArch))
    && (StartsAtCheck(prog) && SomeUnnamed(rules) ==> MeantToImplement(prog, rules, default, auditArch))
    && (!StartsAtCheck(prog) ==> DeadEntry(rules, default))
    && (DeadEntry(rules, default) && SourcesCost(rules, Length) <= 256 ==> !StartsAtCheck(prog))
    && (!StartsAtCheck(prog) ==>
          forall nr: u32 :: FirstLeft(rules, default, nr) ==> EntersAt(prog, rules, default, nr))
    && OffsetsLostFar(prog)
    && (SourcesCost(rules, Loose) == 0 ==> LostToDispatch(prog, rules, default))
    && (OffsetsFit(rules) || |prog| <= 259 ==> Sighted(prog))
    && (Sighted(prog) ==> AlwaysReturns(prog))
    && (Sighted(prog) && StartsAtCheck(prog) && SomeUnnamed(rules) ==> Implements(prog, rules, default, auditArch))
  }

  /** Compile a policy for one architecture. There is an error only if a condition is too deep or
      the program might be too long. A program that comes of it cannot go wrong.
      It starts at the architecture check or with a return, unless the generator settles all
      numbers on KILL and yet conditions have left code that kills. If it does, it kills all calls
      on other architectures, and if the policy leaves some number to the default action, every run
      returns the policy's decision that does not come to a branch with equal offsets whose test
      fails. Such a run was meant to return it, too, going on 256 instructions after the branch.
      There is no such branch if the conditions are small or the program is; if constants settle no
      comparison, it is in the dispatch.
      If it does not start right, it decides every call as the code left on top does. */
  method CompilePolicy(ps: seq<Entries>, main: Option<Entries>, defaultAction: int, auditArch: u32)
    returns (res: CompileResult)
    requires PoliciesOk(ps) && EntriesOk(if main.Some? then main.value else [], |ps|)
    requires defaultAction == 0 || ValidAction(defaultAction)
    ensures var rules := Expand(ps, if main.Some? then main.value else [], {}).0;
            var default := if defaultAction == 0 then ACTION_KILL else defaultAction;
            Compiles(res, rules, default, auditArch)
  {
    var entries := if main.Some? then main.value else [];
    var default := if defaultAction == 0 then ACTION_KILL else defaultAction;
    ghost var source := Expand(ps, entries, {}).0;

    var ranges := CollectRanges(ps, entries, default);
    var ctxt := new Emitter.Context();
    ghost var body := RuleCode.CompileForArch(ctxt, ranges, default, auditArch);
    ghost var code := ctxt.buffer;
    res := FinishProgram(ctxt, body);
    if res.Program? {
      FinishedProgram(body, code, ctxt.maxStackPtr, ranges, source, default, auditArch);
    }
  }

  /** The errors are raised exactly when the emitted code calls for them; body is that code
      without the load of the architecture. */
  method FinishProgram(ctxt: Emitter.Context, ghost body: seq<Instr>) returns (res: CompileResult)
    requires CodeOk(body, ctxt.maxStackPtr) && (ctxt.maxStackPtr == 0 || LdxMem(ctxt.maxStackPtr) in body)
    requires ctxt.buffer == body || ctxt.buffer == body + [LdAbs(OFFSET_ARCH)]
    modifies ctxt`buffer
    ensures res == Finish(old(ctxt.buffer))
    ensures res.StackTooDeep? <==> ctxt.maxStackPtr >= 16
    ensures res.TooLong? <==> ctxt.maxStackPtr < 16 && |old(ctxt.buffer)| > 65535
  {
    SlotsNeeded(body, ctxt.buffer, ctxt.maxStackPtr);
    if ctxt.maxStackPtr >= BPF_MEMWORDS {
      return StackTooDeep;
    }
    if |ctxt.buffer| > USHRT_MAX {
      return TooLong;
    }
    ctxt.ReverseInstructionBuffer();
    return Program(ctxt.buffer);
  }

  /** A finished, well-formed buffer reverses to a program that cannot go wrong; so it does with
      the load of the architecture on top. */
  lemma ReversedIsSafe(buf: seq<Instr>, code: seq<Instr>, maxSlot: nat)
    requires CodeOk(buf, maxSlot) && maxSlot < BPF_MEMWORDS
    requires buf != [] && (code == buf || code == buf + [LdAbs(OFFSET_ARCH)]) && |code| < TWO_32
    ensures Safe(Reverse(code))
  {
    var prog := Reverse(code);
    forall pc | 0 <= pc < |prog| ensures SafeAt(prog, pc) {
      var i := |code| - 1 - pc;
      assert prog[pc] == code[i];
      if i < |buf| { assert InstrOk(buf[i], i) && SlotOk(buf[i], maxSlot); }
    }
  }

  lemma SlotsNeeded(body: seq<Instr>, code: seq<Instr>, maxSlot: nat)
    requires CodeOk(body, maxSlot) && (maxSlot == 0 || LdxMem(maxSlot) in body)
    requires code == body || code == body + [LdAbs(OFFSET_ARCH)]
    ensures NeedsMoreSlots(code) <==> maxSlot >= BPF_MEMWORDS
  {
    if maxSlot >= BPF_MEMWORDS {
      var i :| 0 <= i < |body| && body[i] == LdxMem(maxSlot);
      assert code[i] == LdxMem(maxSlot);
    }
    if NeedsMoreSlots(code) {
      var i :| 0 <= i < |code| && code[i].LdxMem? && code[i].slot >= BPF_MEMWORDS;
      assert code[i] == body[i] && SlotOk(body[i], maxSlot);
    }
  }

  lemma ReversedSighted(code: seq<Instr>)
    ensures Sighted(Reverse(code)) <==> Sighted(code)
  {
    var prog := Reverse(code);
    if Sighted(prog) {
      forall i | 0 <= i < |code| ensures !code[i].IsBlind() {
        assert prog[|code| - 1 - i] == code[i];
      }
    }
  }

  lemma UnnamedGetsDefault(source: seq<SourceRule>, default: int, ranges: seq<Rule>)
    requires SomeUnnamed(source)
    requires RangesOf(ranges, source, default)
    ensures Occurs(ranges, default)
  {
    var nr: u32 :| Unnamed(source, nr);
    var d: Data := RawData(nr, 0, 0, [0, 0, 0, 0, 0, 0]);
    UnnamedUnmatched(source, d, Compiled);
    assert FirstMatch(ranges, d) == Some(default);
  }

  /** The program runs as the code does, backwards. */
  lemma {:induction false} ProgramRuns(how: Reading, body: seq<Instr>, code: seq<Instr>, maxSlot: nat, r: Regs, d: Data)
    requires body != [] && CodeOk(body, maxSlot) && maxSlot < BPF_MEMWORDS && |code| <= USHRT_MAX
    requires code == body || code == body + [LdAbs(OFFSET_ARCH)]
    ensures Interpret(how, Reverse(code), 0, r, d) == RunAll(how, code, r, d)
  {
    forall j | 0 <= j < |code| ensures SlotInRange(code[j]) && (code[j].Ja? ==> code[j].skip < TWO_32) {
      if j < |body| { assert code[j] == body[j] && InstrOk(body[j], j) && SlotOk(body[j], maxSlot); }
    }
    InterpretReversed(how, code, |code| - 1, r, d);
  }

  lemma RendersIsMeant(body: seq<Instr>, code: seq<Instr>, maxSlot: nat, ranges: seq<Rule>,
                       source: seq<SourceRule>, default: int, auditArch: u32)
    requires body != [] && CodeOk(body, maxSlot) && maxSlot < BPF_MEMWORDS && |code| <= USHRT_MAX
    requires code == body || code == body + [LdAbs(OFFSET_ARCH)]
    requires Renders(code, ranges, auditArch) && RangesOf(ranges, source, default)
    ensures MeantToImplement(Reverse(code), source, default, auditArch)
  {
    forall r: Regs, d: Data
      ensures Gives(Reverse(code), r, d, Expected(source, default, auditArch, d, Compiled))
    {
      ProgramRuns(AsMeant, body, code, maxSlot, r, d);
      GivesAsMeant(Reverse(code), r, d);
      assert RunAll(AsMeant, code, r, d) == Verdict(ranges, auditArch, d);
    }
  }

  lemma MeantIsImplemented(prog: seq<Instr>, source: seq<SourceRule>, default: int, auditArch: u32)
    requires Sighted(prog) && MeantToImplement(prog, source, default, auditArch)
    ensures Implements(prog, source, default, auditArch)
  {
    forall r: Regs, d: Data
      ensures Interpret(AsIs, prog, 0, r, d) == Expected(source, default, auditArch, d, Compiled)
    {
      SightedGives(prog, r, d, Expected(source, default, auditArch, d, Compiled));
    }
  }

  lemma {:induction false} LeftoverRuns(code: seq<Instr>, ranges: seq<Rule>, r: Regs, d: Data)
    requires code != [] && LocOk(code, |code| - 1) && LeftYields(code, ranges, 0)
    ensures RunAll(AsMeant, code, r, d) == CodeOf(LeftTop(ranges, 0, d))
  {
    assert Yields(code, |code| - 1, d, CodeOf(LeftTop(ranges, 0, d)));
    assert OutcomeAt(code, |code| - 1, r, d) == CodeOf(LeftTop(ranges, 0, d));
  }

  /** The code left on top decides. */
  lemma LeftoverDecides(body: seq<Instr>, code: seq<Instr>, maxSlot: nat, ranges: seq<Rule>,
                        source: seq<SourceRule>, default: int, nr: u32)
    requires body != [] && CodeOk(body, maxSlot) && maxSlot < BPF_MEMWORDS && |code| <= USHRT_MAX
    requires code == body || code == body + [LdAbs(OFFSET_ARCH)]
    requires RangesOf(ranges, source, default) && FirstLeft(source, default, nr)
    requires StartsAtLeftover(code, ranges, default)
    ensures EntersAt(Reverse(code), source, default, nr)
  {
    forall r: Regs, d: Data
      ensures Gives(Reverse(code), r, d, CodeOf(Leftover(SaysOf(source, nr, default), d)))
    {
      ProgramRuns(AsMeant, body, code, maxSlot, r, d);
      GivesAsMeant(Reverse(code), r, d);
      TopOfRanges(ranges, source, default, 0, nr, d);
      LeftoverRuns(code, ranges, r, d);
    }
  }

  lemma DeadRanges(ranges: seq<Rule>, source: seq<SourceRule>, default: int)
    requires RangesOf(ranges, source, default)
    ensures KillsLeaving(ranges, default) <==> DeadEntry(source, default)
  {
    KillingRanges(ranges, source, default);
    if KillsLeaving(ranges, default) {
      var c :| 0 < c && AllSettled(ranges, 0, c);
      SettledRanges(ranges, source, default, c);
    }
    if DeadEntry(source, default) {
      var c :| 0 < c && SettledOn(source, default, c);
      SettledRanges(ranges, source, default, c);
    }
  }

  lemma AnswersIsReturns(body: seq<Instr>, code: seq<Instr>, maxSlot: nat)
    requires body != [] && CodeOk(body, maxSlot) && maxSlot < BPF_MEMWORDS && |code| <= USHRT_MAX
    requires code == body || code == body + [LdAbs(OFFSET_ARCH)]
    requires Answers(code)
    ensures MeantToReturn(Reverse(code))
  {
    var prog := Reverse(code);
    forall r: Regs, d: Data
      ensures Interpret(AsMeant, prog, 0, r, d).Returned? && Gives(prog, r, d, Interpret(AsMeant, prog, 0, r, d))
    {
      ProgramRuns(AsMeant, body, code, maxSlot, r, d);
      GivesAsMeant(prog, r, d);
      assert RunAll(AsMeant, code, r, d).Returned?;
    }
  }

  lemma MeantIsReturned(prog: seq<Instr>)
    requires Sighted(prog) && MeantToReturn(prog)
    ensures AlwaysReturns(prog)
  {
    forall r: Regs, d: Data ensures Interpret(AsIs, prog, 0, r, d).Returned? {
      SightedGives(prog, r, d, Interpret(AsMeant, prog, 0, r, d));
    }
  }

  lemma KillsElsewhereRuns(body: seq<Instr>, code: seq<Instr>, maxSlot: nat, auditArch: u32)
    requires body != [] && CodeOk(body, maxSlot) && maxSlot < BPF_MEMWORDS && |code| <= USHRT_MAX
    requires code == body || code == body + [LdAbs(OFFSET_ARCH)]
    requires KillsElsewhere(code, auditArch)
    ensures KillsOtherArchs(Reverse(code), auditArch)
  {
    forall r: Regs, d: Data | d.arch != auditArch
      ensures Interpret(AsIs, Reverse(code), 0, r, d) == Returned(SECCOMP_RET_KILL)
    {
      ProgramRuns(AsIs, body, code, maxSlot, r, d);
    }
  }

  /** Where offsets have been lost. */
  lemma ReversedLost(body: seq<Instr>, code: seq<Instr>, maxSlot: nat)
    requires CodeOk(body, maxSlot) && (code == body || code == body + [LdAbs(OFFSET_ARCH)])
    ensures OffsetsLostFar(Reverse(code))
  {
    var prog := Reverse(code);
    forall pc | 0 <= pc < |prog| && prog[pc].IsBlind() ensures OffsetLost(prog, pc) {
      var i := |code| - 1 - pc;
      assert prog[pc] == code[i] == body[i] && LostAt(body, i);
      assert prog[pc + 1] == body[i - 1] && prog[pc + 2] == body[i - 2];
    }
  }

  lemma {:induction false} DispatchLost(code: seq<Instr>, ranges: seq<Rule>, source: seq<SourceRule>, default: int)
    requires RangesOf(ranges, source, default) && DispatchLoses([], code, ranges)
    ensures SourcesCost(source, Loose) == 0 ==> LostToDispatch(Reverse(code), source, default)
  {
    var prog := Reverse(code);
    if SourcesCost(source, Loose) == 0 {
      assert RulesCost(ranges, Loose) <= SourcesCost(source, Loose);
      forall pc | 0 <= pc < |prog| && prog[pc].IsBlind() ensures TestsNumber(prog[pc], ranges) {
        assert prog[pc] == code[|code| - 1 - pc];
      }
    }
  }

  lemma LeftoverIsEntry(body: seq<Instr>, code: seq<Instr>, maxSlot: nat, ranges: seq<Rule>,
                        source: seq<SourceRule>, default: int)
    requires body != [] && CodeOk(body, maxSlot) && maxSlot < BPF_MEMWORDS && |code| <= USHRT_MAX
    requires code == body || code == body + [LdAbs(OFFSET_ARCH)]
    requires RangesOf(ranges, source, default) && StartsAtLeftover(code, ranges, default)
    ensures forall nr: u32 :: FirstLeft(source, default, nr) ==> EntersAt(Reverse(code), source, default, nr)
  {
    forall nr: u32 | FirstLeft(source, default, nr) ensures EntersAt(Reverse(code), source, default, nr) {
      LeftoverDecides(body, code, maxSlot, ranges, source, default, nr);
    }
  }

  lemma ShortIsSighted(body: seq<Instr>, code: seq<Instr>, maxSlot: nat)
    requires CodeOk(body, maxSlot) && (code == body || code == body + [LdAbs(OFFSET_ARCH)]) && |code| <= FIRST_BLIND
    ensures Sighted(code)
  {
    forall i | 0 <= i < |code| ensures !code[i].IsBlind() {
      if i < |body| { assert code[i] == body[i]; }
    }
  }

  lemma ReversedStart(code: seq<Instr>)
    ensures StartsAtCheck(Reverse(code)) == StartsRight(code)
  {
  }

  lemma {:induction false} DeadEntryFound(code: seq<Instr>, ranges: seq<Rule>, source: seq<SourceRule>, default: int)
    requires RangesOf(ranges, source, default)
    requires !StartsRight(code) ==> KillsLeaving(ranges, default)
    requires KillsLeaving(ranges, default) && RulesCost(ranges, Length) <= MAX_JUMP + 1 ==> !StartsRight(code)
    ensures !StartsRight(code) ==> DeadEntry(source, default)
    ensures DeadEntry(source, default) && SourcesCost(source, Length) <= MAX_JUMP + 1 ==> !StartsRight(code)
  {
    DeadRanges(ranges, source, default);
    assert RulesCost(ranges, Length) <= SourcesCost(source, Length);
  }

  lemma ProgramSighted(body: seq<Instr>, code: seq<Instr>, maxSlot: nat, ranges: seq<Rule>,
                       source: seq<SourceRule>, default: int)
    requires CodeOk(body, maxSlot) && (code == body || code == body + [LdAbs(OFFSET_ARCH)])
    requires RangesOf(ranges, source, default) && (RulesFit(ranges) ==> Sighted(code))
    ensures OffsetsFit(source) || |code| <= FIRST_BLIND ==> Sighted(Reverse(code))
  {
    ReversedSighted(code);
    if OffsetsFit(source) { FitsInRanges(source, ranges, default); }
    if |code| <= FIRST_BLIND { ShortIsSighted(body, code, maxSlot); }
  }

  /** The ranges decide like the policy, and the code like the ranges. */
  lemma {:induction false} FinishedProgram(body: seq<Instr>, code: seq<Instr>, maxSlot: nat, ranges: seq<Rule>,
                                           source: seq<SourceRule>, default: int, auditArch: u32)
    requires body != [] && CodeOk(body, maxSlot) && maxSlot < BPF_MEMWORDS
    requires code == body || code == body + [LdAbs(OFFSET_ARCH)]
    requires |code| <= USHRT_MAX && |code| <= LengthBound(source)
    requires RangesOf(ranges, source, default)
    requires (RulesFit(ranges) ==> Sighted(code)) && DispatchLoses([], code, ranges)
    requires Answers(code) && (StartsRight(code) ==> KillsElsewhere(code, auditArch))
    requires StartsRight(code) && Occurs(ranges, default) ==> Renders(code, ranges, auditArch)
    requires !StartsRight(code) ==> StartsAtLeftover(code, ranges, default)
    requires KillsLeaving(ranges, default) && RulesCost(ranges, Length) <= MAX_JUMP + 1 ==> !StartsRight(code)
    ensures CompiledFrom(Reverse(code), source, default, auditArch)
  {
    var prog := Reverse(code);
    ReversedIsSafe(body, code, maxSlot);
    ReversedStart(code);
    DeadEntryFound(code, ranges, source, default);
    AnswersIsReturns(body, code, maxSlot);
    ReversedLost(body, code, maxSlot);
    DispatchLost(code, ranges, source, default);
    ProgramSighted(body, code, maxSlot, ranges, source, default);
    if !StartsRight(code) {
      LeftoverIsEntry(body, code, maxSlot, ranges, source, default);
    } else {
      KillsElsewhereRuns(body, code, maxSlot, auditArch);
      if SomeUnnamed(source) {
        UnnamedGetsDefault(source, default, ranges);
        RendersIsMeant(body, code, maxSlot, ranges, source, default, auditArch);
        if Sighted(prog) { MeantIsImplemented(prog, source, default, auditArch); }
      }
    }
    if Sighted(prog) { MeantIsReturned(prog); }
  }
}
