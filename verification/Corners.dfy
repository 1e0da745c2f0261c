/** The inputs on which the compiler, as it is, does not do what it is meant to. */
module Corners {
  import opened Words
  import opened Actions
  import opened Bpf
  import opened Interpreter
  import opened Expression
  import opened Constants
  import opened CodeSize
  import opened Comparisons
  import opened Outlines
  import opened Policy
  import opened Rules
  import opened CodeMeaning
  import opened Branching
  import opened MappingCode
  import opened Collapse
  import opened FilterCode
  import opened Normalise
  import opened RangeRules
  import opened Compiler
  import Emitter
  import RuleCode

  // ----- a lost offset -----

  /** Code with two returns behind loads at 1 and 3, which are 256 and 254 instructions back. */
  function FarTargets(): (b: seq<Instr>)
    ensures |b| == MAX_JUMP + 3 && LocOk(b, 1) && LocOk(b, 3)
  {
    [Ret(SECCOMP_RET_LOG), LdAbs(OFFSET_NR), Ret(SECCOMP_RET_ALLOW), LdAbs(OFFSET_NR)]
    + seq(MAX_JUMP - 1, _ => LdAbs(OFFSET_NR))
  }

  /** A generator can get there. */
  method FarContext() returns (ctxt: Emitter.Context)
    ensures fresh(ctxt) && fresh(ctxt.basicActions) && fresh(ctxt.cache)
    ensures ctxt.Valid() && ctxt.Settled() && ctxt.buffer == FarTargets()
  {
    ctxt := new Emitter.Context();
    var _ := ctxt.AddInstruction(Ret(SECCOMP_RET_LOG));
    var _ := ctxt.AddInstruction(LdAbs(OFFSET_NR));
    var _ := ctxt.AddInstruction(Ret(SECCOMP_RET_ALLOW));
    var _ := ctxt.AddInstruction(LdAbs(OFFSET_NR));
    for i := 0 to MAX_JUMP - 1
      invariant ctxt.Valid() && fresh(ctxt) && fresh(ctxt.basicActions) && fresh(ctxt.cache)
      invariant ctxt.buffer == FarTargets()[..4 + i]
    {
      var _ := ctxt.AddInstruction(LdAbs(OFFSET_NR));
    }
  }

  /** The branch to these targets always continues at the first of them. */
  method LostOffset(ctxt: Emitter.Context) returns (loc: int)
    requires ctxt.Valid() && ctxt.Settled() && ctxt.buffer == FarTargets()
    modifies ctxt`buffer, ctxt`cacheSize, ctxt.basicActions, ctxt.cache
    ensures old(ctxt.OffsetLost(1, 3))
    ensures LocOk(ctxt.buffer, loc) && LocOk(ctxt.buffer, 1) && LocOk(ctxt.buffer, 3)
    ensures BranchesTo(AsIs, ctxt.buffer, loc, Jeq, Imm(0), 1, 1)
    ensures !BranchesTo(AsIs, ctxt.buffer, loc, Jeq, Imm(0), 1, 3)
  {
    ghost var r, d: Data := Regs(1, 0, map[]), RawData(0, 0, 0, [0, 0, 0, 0, 0, 0]);
    FarOutcomes(r, d);
    loc := ctxt.AddJump(Jeq, Imm(0), 1, 3);
  }

  lemma FarOutcomes(r: Regs, d: Data)
    ensures OutcomeAs(AsIs, FarTargets(), 1, r, d) == Returned(SECCOMP_RET_LOG)
    ensures OutcomeAs(AsIs, FarTargets(), 3, r, d) == Returned(SECCOMP_RET_ALLOW)
  {
    var b := FarTargets();
    assert b[0] == Ret(SECCOMP_RET_LOG) && b[1] == LdAbs(OFFSET_NR);
    assert b[2] == Ret(SECCOMP_RET_ALLOW) && b[3] == LdAbs(OFFSET_NR);
  }

  // ----- a dead entry -----

  /** (arg & 0xff) == 0x1_0000_0000, which holds of no argument. */
  function NeverEqual(): BoolExpr {
    Compare(Eq, Masked(), Num(0x1_0000_0000))
  }

  function Masked(): Value {
    Bits(BitAndOp, Var(0, 8), Num(255))
  }

  /** The policy that allows system call 0 if NeverEqual holds. */
  function AllowNever(): Entries {
    [Block(ACTION_ALLOW, [Filter(0, Some(NeverEqual()))])]
  }

  function NeverRules(): seq<SourceRule> {
    [SourceRule(Filter(0, Some(NeverEqual())), ACTION_ALLOW)]
  }

  function NeverMappings(): seq<Mapping> {
    [Mapping(Some(NeverEqual()), ACTION_ALLOW), Mapping(None, ACTION_KILL)]
  }

  lemma NeverExpanded()
    ensures PoliciesOk([]) && EntriesOk(AllowNever(), 0)
    ensures Expand([], AllowNever(), {}).0 == NeverRules()
  {
    assert AllowNever()[1..] == [];
    assert Expand([], [], {}) == ([], {});
  }

  /** The simplifier leaves the condition alone. */
  lemma NeverSimplified()
    ensures Simplify(NeverEqual()) == NeverEqual()
  {
    assert SimplifyValue(Masked()) == Masked();
  }

  lemma NeverSays(nr: u32)
    ensures SaysOf(NeverRules(), nr, ACTION_KILL) == if nr == 0 then Ask(NeverMappings()) else Act(ACTION_KILL)
  {
    NeverSimplified();
    var x := Rule(0, 0, ACTION_CONDITIONAL, 1, [Mapping(Some(NeverEqual()), ACTION_ALLOW)]);
    AddedSingle([], NeverRules()[0]);
    assert Added([], NeverRules()) == [] + [x];
    ToldOfSnoc([], x, nr);
  }

  /** The test of the low words is emitted; constants decide the one of the high words against it,
      and nothing is emitted on top. */
  lemma NeverOutline()
    ensures OutlineOf(NeverEqual()) == Outline(Some(false), true, true)
  {
    assert WordConst(Masked(), High) == Some(0) && WordConst(Num(0x1_0000_0000), High) == Some(1);
    assert WordConst(Masked(), Low) == None && WordConst(Num(0x1_0000_0000), Low) == Some(0);
    assert PlanCmp(Jeq, Masked(), Num(0x1_0000_0000), Low) == Branch(Jset, Var(0, 8), Num(255), true);
    assert WordConst(Num(255), Low) == Some(255);
  }

  lemma {:induction false} NeverLeaves(d: Data)
    ensures SettledAction(NeverMappings()) == Some(ACTION_KILL)
    ensures LeavesCode(NeverMappings()) && LeavesKill(NeverMappings())
    ensures And32(WordOf(d.args[0], Low), 255) == 0 ==> TopAction(NeverMappings(), d) == Some(ACTION_ALLOW)
  {
    NeverOutline();
    assert NeverMappings()[1..] == [Mapping(None, ACTION_KILL)];
    BitsByWord(Masked(), Low, d);
  }

  lemma NeverCosts()
    ensures SourcesCost(NeverRules(), Length) == 16 && !TooDeep(NeverRules())
  {
    NeverSimplified();
    assert NeverRules()[..0] == [];
    assert LoadSize(Masked()) == 2 && LoadSlots(Masked()) == 0;
    assert ExprSize(NeverEqual()) == 16 && ExprSlots(NeverEqual()) == 1;
  }

  lemma {:induction false} NeverHolds(d: Data)
    ensures !Holds64(NeverEqual(), d)
  {
    BitsByWord(Masked(), High, d);
    Word32Laws(WordOf(d.args[0], High), 0);
    OrderByWord(ValueOf(Masked(), d), 0x1_0000_0000);
  }

  /** A policy that kills every call, on any architecture, and its program, which allows those
      whose argument has a zero low byte. */
  method DeadEntry(auditArch: u32) returns (res: CompileResult)
    ensures DefinedBeforeUse([]) && EntriesOk(AllowNever(), 0)
    ensures forall d: Data ::
              Expected(Paste([], AllowNever(), 0), ACTION_KILL, auditArch, d, Documented) == Returned(SECCOMP_RET_KILL)
    ensures res.Program?
    ensures forall r: Regs, d: Data :: And32(WordOf(d.args[0], Low), 255) == 0 ==>
              Interpret(AsIs, res.prog, 0, r, d) == Returned(SECCOMP_RET_ALLOW)
  {
    NeverExpanded();
    res := CompilePolicy([], Some(AllowNever()), 0, auditArch);
    NeverKilled(auditArch);
    NeverCosts();
    NeverEnters();
    assert EntersAt(res.prog, NeverRules(), ACTION_KILL, 0);
    forall r: Regs, d: Data | And32(WordOf(d.args[0], Low), 255) == 0
      ensures Interpret(AsIs, res.prog, 0, r, d) == Returned(SECCOMP_RET_ALLOW)
    {
      NeverRuns(res.prog, r, d);
    }
  }

  lemma {:induction false} NeverRuns(prog: seq<Instr>, r: Regs, d: Data)
    requires Sighted(prog) && EntersAt(prog, NeverRules(), ACTION_KILL, 0)
    requires And32(WordOf(d.args[0], Low), 255) == 0
    ensures Interpret(AsIs, prog, 0, r, d) == Returned(SECCOMP_RET_ALLOW)
  {
    NeverSays(0);
    NeverLeaves(d);
    SightedGives(prog, r, d, CodeOf(Leftover(SaysOf(NeverRules(), 0, ACTION_KILL), d)));
  }

  lemma NeverKilled(auditArch: u32)
    ensures DefinedBeforeUse([]) && EntriesOk(AllowNever(), 0)
    ensures forall d: Data ::
              Expected(Paste([], AllowNever(), 0), ACTION_KILL, auditArch, d, Documented) == Returned(SECCOMP_RET_KILL)
  {
    assert AllowNever()[1..] == [];
    assert Paste([], AllowNever(), 0) == NeverRules();
    forall d: Data ensures FirstSource(NeverRules(), d, Documented) == None {
      assert NeverRules()[..0] == [];
      NeverHolds(d);
    }
  }

  lemma NeverEnters()
    ensures Compiler.DeadEntry(NeverRules(), ACTION_KILL) && FirstLeft(NeverRules(), ACTION_KILL, 0)
  {
    var d: Data := RawData(0, 0, 0, [0, 0, 0, 0, 0, 0]);
    NeverLeaves(d);
    NeverSays(0);
    forall nr: u32 ensures Settled(SaysOf(NeverRules(), nr, ACTION_KILL)) == Some(ACTION_KILL) {
      NeverSays(nr);
    }
    assert SettledOn(NeverRules(), ACTION_KILL, ACTION_KILL);
  }

  // ----- a stray default -----

  function AllowAll(): seq<Rule> {
    [Unconditional(0, MAX_SYSCALL_NR, ACTION_ALLOW)]
  }

  /** Rules that all allow, with a default that none of them applies: the default action replaces the
      dispatch, which needs no code, and kills every call. */
  method StrayDefault(ctxt: Emitter.Context) returns (next: int)
    requires ctxt.Valid() && ctxt.Settled() && ctxt.buffer == []
    modifies ctxt`buffer, ctxt`cacheSize, ctxt`maxStackPtr, ctxt.basicActions, ctxt.cache
    ensures Uniform(AllowAll(), ACTION_ALLOW) && LocOk(ctxt.buffer, next)
    ensures next == -ACTION_KILL && !DecidesAll(ctxt.buffer, next, AllowAll())
  {
    forall d: Data ensures FirstMatch(AllowAll(), d) == Some(ACTION_ALLOW) { FirstMatchSingle(AllowAll()[0], d); }
    assert AllSettled(AllowAll(), 0, ACTION_ALLOW);
    next := RuleCode.CompileRules(ctxt, AllowAll(), ACTION_KILL);
    assert FirstMatch(AllowAll(), RawData(0, 0, 0, [0, 0, 0, 0, 0, 0])) == Some(ACTION_ALLOW);
  }
}
