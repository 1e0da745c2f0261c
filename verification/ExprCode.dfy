/** Code for conditions: loads, comparisons of 32-bit words and of 64-bit numbers, and
    expressions, in continuation style. */
module ExprCode {
  import opened Words
  import opened Bpf
  import opened Expression
  import opened CodeSize
  import opened Constants
  import opened Outlines
  import opened CodeMeaning
  import opened LoadCode
  import opened Comparisons
  import opened CompareCode
  import opened ConditionCode
  import opened Branching
  import opened Emitter

  /** A branch, unless the constant it compares with settles the test. */
  method AddTest(ctxt: Context, cond: Cond, operand: Operand, t: int, f: int) returns (loc: int)
    requires ctxt.Valid() && ctxt.Settled() && LocOk(ctxt.buffer, t) && LocOk(ctxt.buffer, f)
    modifies ctxt`buffer, ctxt`cacheSize, ctxt.basicActions, ctxt.cache
    ensures ctxt.Valid() && ctxt.Settled() && LocOk(ctxt.buffer, loc)
    ensures |ctxt.buffer| <= |old(ctxt.buffer)| + BRANCH_SIZE
    ensures var settled := operand.Imm? && SettlesTest(cond, operand.k);
            Lands(old(ctxt.buffer), ctxt.buffer, TestOutline(if settled then Some(cond.Jge?) else None), t, f, loc)
    ensures KeepsSight(old(ctxt.buffer), ctxt.buffer, 0, t, f)
    ensures BranchesTo(AsMeant, ctxt.buffer, loc, cond, operand, t, f)
  {
    if operand.Imm? && SettlesTest(cond, operand.k) {
      if cond.Jset? {
        forall a: u32 ensures And32(a, 0) == 0 { Word32Laws(a, 0); }
      }
      return if cond.Jge? then t else f;
    }
    loc := ctxt.AddJump(cond, operand, t, f);
  }

  /** Emit code that loads word w of v into A and falls into the code emitted so far. */
  method GenerateLoad(ctxt: Context, v: Value, w: Word, sp: nat) returns (loc: int)
    requires ctxt.Valid() && ctxt.Settled() && ctxt.buffer != [] && !IsConst(v, w)
    modifies ctxt`buffer, ctxt`maxStackPtr
    ensures ctxt.Valid() && ctxt.Settled() && old(ctxt.buffer) <= ctxt.buffer && Harmless(old(ctxt.buffer), ctxt.buffer)
    ensures |ctxt.buffer| <= |old(ctxt.buffer)| + LoadSize(v)
    ensures SlotsWithin(old(ctxt.maxStackPtr), ctxt.maxStackPtr, sp + LoadSlots(v))
    ensures loc == |ctxt.buffer| - 1 >= |old(ctxt.buffer)| && LocOk(ctxt.buffer, loc)
    ensures Loads(old(ctxt.buffer), ctxt.buffer, v, w, sp)
    decreases v.Size(), 1
  {
    ghost var b0 := ctxt.buffer;
    match v {
      case Var(arg, _) =>
        loc := ctxt.AddInstruction(LdAbs(ArgOffset(arg, w)));
        VarLoads(b0, v, w, sp);
      case Bits(op, l, r) =>
        var (left, right) := if IsConst(l, w) then (r, l) else (l, r);
        if IsConst(right, w) {
          loc := GenerateWithConst(ctxt, v, left, WordConst(right, w).value, w, sp);
        } else {
          var _ := ctxt.AddInstruction(AluX(AluOf(op)));
          loc := GenerateOperands(ctxt, left, right, w, sp);
          PairThenAluLoads(b0, ctxt.buffer, v, w, sp);
        }
    }
  }

  /** One operand of the node is the constant c in this word. */
  method GenerateWithConst(ctxt: Context, v: Value, left: Value, c: u32, w: Word, sp: nat) returns (loc: int)
    requires ctxt.Valid() && ctxt.Settled() && ctxt.buffer != [] && v.Bits? && !IsConst(left, w)
    requires || (left == v.left && WordConst(v.right, w) == Some(c))
             || (left == v.right && WordConst(v.left, w) == Some(c))
    modifies ctxt`buffer, ctxt`maxStackPtr
    ensures ctxt.Valid() && ctxt.Settled() && old(ctxt.buffer) <= ctxt.buffer && Harmless(old(ctxt.buffer), ctxt.buffer)
    ensures |ctxt.buffer| <= |old(ctxt.buffer)| + LoadSize(v)
    ensures SlotsWithin(old(ctxt.maxStackPtr), ctxt.maxStackPtr, sp + LoadSlots(v))
    ensures loc == |ctxt.buffer| - 1 >= |old(ctxt.buffer)| && LocOk(ctxt.buffer, loc)
    ensures Loads(old(ctxt.buffer), ctxt.buffer, v, w, sp)
    decreases v.Size(), 0
  {
    ghost var b0 := ctxt.buffer;
    if c != WordIdentity(v.op) {
      var _ := ctxt.AddInstruction(AluK(AluOf(v.op), c));
    }
    loc := GenerateLoad(ctxt, left, w, sp);
    ConstOperandLoads(b0, ctxt.buffer, v, left, c, w, sp);
  }

  /** Emit code that loads word w of left into A and of right into X. The right operand
      waits in a scratch slot, or in X itself when loading the left one cannot touch X. */
  method GenerateOperands(ctxt: Context, left: Value, right: Value, w: Word, sp: nat) returns (loc: int)
    requires ctxt.Valid() && ctxt.Settled() && ctxt.buffer != [] && !IsConst(left, w) && !IsConst(right, w)
    modifies ctxt`buffer, ctxt`maxStackPtr
    ensures ctxt.Valid() && ctxt.Settled() && old(ctxt.buffer) <= ctxt.buffer && Harmless(old(ctxt.buffer), ctxt.buffer)
    ensures |ctxt.buffer| <= |old(ctxt.buffer)| + OperandSize(left, right)
    ensures SlotsWithin(old(ctxt.maxStackPtr), ctxt.maxStackPtr, sp + OperandSlots(left, right))
    ensures loc == |ctxt.buffer| - 1 >= |old(ctxt.buffer)| && LocOk(ctxt.buffer, loc)
    ensures PairLoads(old(ctxt.buffer), ctxt.buffer, left, right, w, sp)
    decreases left.Size() + right.Size(), 1
  {
    if left.Var? {
      loc := GenerateWithIndex(ctxt, left, right, w, sp);
    } else {
      loc := GenerateWithSlot(ctxt, left, right, w, sp);
    }
  }

  method GenerateWithSlot(ctxt: Context, left: Value, right: Value, w: Word, sp: nat) returns (loc: int)
    requires ctxt.Valid() && ctxt.Settled() && ctxt.buffer != []
    requires !IsConst(left, w) && !IsConst(right, w) && !left.Var?
    modifies ctxt`buffer, ctxt`maxStackPtr
    ensures ctxt.Valid() && ctxt.Settled() && old(ctxt.buffer) <= ctxt.buffer && Harmless(old(ctxt.buffer), ctxt.buffer)
    ensures |ctxt.buffer| <= |old(ctxt.buffer)| + OperandSize(left, right)
    ensures SlotsWithin(old(ctxt.maxStackPtr), ctxt.maxStackPtr, sp + OperandSlots(left, right))
    ensures loc == |ctxt.buffer| - 1 >= |old(ctxt.buffer)| && LocOk(ctxt.buffer, loc)
    ensures PairLoads(old(ctxt.buffer), ctxt.buffer, left, right, w, sp)
    decreases left.Size() + right.Size(), 0
  {
    ghost var b0 := ctxt.buffer;
    ctxt.AddSlotLoad(sp);
    var _ := GenerateLoad(ctxt, left, w, sp + 1);
    ghost var b1 := ctxt.buffer;
    var _ := ctxt.AddInstruction(St(sp));
    loc := GenerateLoad(ctxt, right, w, sp);
    StackPairLoads(b0, b1, ctxt.buffer, left, right, w, sp);
  }

  method GenerateWithIndex(ctxt: Context, left: Value, right: Value, w: Word, sp: nat) returns (loc: int)
    requires ctxt.Valid() && ctxt.Settled() && ctxt.buffer != [] && !IsConst(left, w) && !IsConst(right, w) && left.Var?
    modifies ctxt`buffer, ctxt`maxStackPtr
    ensures ctxt.Valid() && ctxt.Settled() && old(ctxt.buffer) <= ctxt.buffer && Harmless(old(ctxt.buffer), ctxt.buffer)
    ensures |ctxt.buffer| <= |old(ctxt.buffer)| + OperandSize(left, right)
    ensures SlotsWithin(old(ctxt.maxStackPtr), ctxt.maxStackPtr, sp + OperandSlots(left, right))
    ensures loc == |ctxt.buffer| - 1 >= |old(ctxt.buffer)| && LocOk(ctxt.buffer, loc)
    ensures PairLoads(old(ctxt.buffer), ctxt.buffer, left, right, w, sp)
    decreases left.Size() + right.Size(), 0
  {
    ghost var b0 := ctxt.buffer;
    var _ := GenerateLoad(ctxt, left, w, sp);
    ghost var b1 := ctxt.buffer;
    var _ := ctxt.AddInstruction(Tax);
    loc := GenerateLoad(ctxt, right, w, sp);
    IndexPairLoads(b0, b1, ctxt.buffer, left, right, w, sp);
  }

  /** The test of a plan, with its sides exchanged if the plan says so. */
  lemma {:induction false} PlanTested(b0: seq<Instr>, b: seq<Instr>, p: Plan, w: Word, operand: Operand, yes: int,
                                      no: int, t: int, f: int, next: int)
    requires p.Branch? && LocOk(b0, t) && LocOk(b0, f) && LocOk(b, next) && LocOk(b, yes) && LocOk(b, no)
    requires operand == if IsConst(p.right, w) then Imm(WordConst(p.right, w).value) else IndexReg
    requires (yes, no) == if p.flipped then (f, t) else (t, f)
    requires var settled := operand.Imm? && SettlesTest(p.cond, operand.k);
             Lands(b0, b, TestOutline(if settled then Some(p.cond.Jge?) else None), yes, no, next)
    requires KeepsSight(b0, b, 0, yes, no)
    requires BranchesTo(AsMeant, b, next, p.cond, operand, yes, no)
    ensures PlanBuilt(b0, b, p, w, Never, t, f, next)
  {
    forall r: Regs
      ensures Pick(BranchHolds(p, w, r), t, f) == Pick(Test(p.cond, r.a, operand.In(r)), yes, no)
    {
    }
  }

  /** The branch of a plan, on whatever the registers hold. */
  method GeneratePlanBranch(ctxt: Context, p: Plan, t: int, f: int, w: Word) returns (next: int)
    requires ctxt.Valid() && ctxt.Settled() && LocOk(ctxt.buffer, t) && LocOk(ctxt.buffer, f) && p.Branch?
    modifies ctxt`buffer, ctxt`cacheSize, ctxt.basicActions, ctxt.cache
    ensures ctxt.Valid() && ctxt.Settled()
    ensures |ctxt.buffer| <= |old(ctxt.buffer)| + BRANCH_SIZE
    ensures PlanBuilt(old(ctxt.buffer), ctxt.buffer, p, w, Never, t, f, next)
  {
    var operand := if IsConst(p.right, w) then Imm(WordConst(p.right, w).value) else IndexReg;
    var (yes, no) := if p.flipped then (f, t) else (t, f);
    ghost var b := ctxt.buffer;
    next := AddTest(ctxt, p.cond, operand, yes, no);
    PlanTested(b, ctxt.buffer, p, w, operand, yes, no, t, f, next);
  }

  /** The operands of a plan, loaded into A and, if both vary, X, on top of its branch or of the
      code at f; b0 is the code without the branch. */
  method GeneratePlanLoad(ctxt: Context, p: Plan, w: Word, ghost load: LoadMode, ghost t: int, ghost f: int,
                          ghost mid: int, ghost b0: seq<Instr>) returns (next: int)
    requires ctxt.Valid() && ctxt.Settled() && LocOk(b0, t) && LocOk(b0, f) && p.Branch? && !IsConst(p.left, w)
    requires PlanBuilt(b0, ctxt.buffer, p, w, Never, t, f, mid) && 0 <= mid == |ctxt.buffer| - 1
    requires load.Always? || (load.Normal? && |b0| <= mid)
    modifies ctxt`buffer, ctxt`maxStackPtr
    ensures ctxt.Valid() && ctxt.Settled()
    ensures |ctxt.buffer| <= |old(ctxt.buffer)| + PlanSize(p, w)
    ensures SlotsWithin(old(ctxt.maxStackPtr), ctxt.maxStackPtr, PlanSlots(p, w))
    ensures PlanBuilt(b0, ctxt.buffer, p, w, load, t, f, next)
  {
    ghost var b := ctxt.buffer;
    if IsConst(p.right, w) {
      next := GenerateLoad(ctxt, p.left, w, 0);
    } else {
      next := GenerateOperands(ctxt, p.left, p.right, w, 0);
    }
    LoadThenBranch(b, ctxt.buffer, p, w, t, f);
    PlanLoaded(b0, b, ctxt.buffer, p, w, load, t, f, mid, next);
  }

  /** Compare word w of l and r. A comparison that constants settle emits nothing and
      returns one of its targets; Always is for loading on top of the branch at f. */
  method GenerateCmp32(ctxt: Context, cond: Cond, l: Value, r: Value, t: int, f: int, w: Word, load: LoadMode)
    returns (next: int)
    requires ctxt.Valid() && ctxt.Settled() && LocOk(ctxt.buffer, t) && LocOk(ctxt.buffer, f) && !cond.Jset?
    requires load.Always? ==> cond.Jgt? && PlanCmp(cond, l, r, w).Branch? && t < f == |ctxt.buffer| - 1 && 0 <= f
    modifies ctxt`buffer, ctxt`cacheSize, ctxt`maxStackPtr, ctxt.basicActions, ctxt.cache
    ensures ctxt.Valid() && ctxt.Settled()
    ensures |ctxt.buffer| <= |old(ctxt.buffer)| + BRANCH_SIZE + (if load.Never? then 0 else OperandSize(l, r))
    ensures SlotsWithin(old(ctxt.maxStackPtr), ctxt.maxStackPtr, OperandSlots(l, r))
    ensures PlanBuilt(old(ctxt.buffer), ctxt.buffer, PlanCmp(cond, l, r, w), w, load, t, f, next)
  {
    var p := PlanCmp(cond, l, r, w);
    if p.Decided? {
      return Pick(p.outcome, t, f);
    }
    PlanLoadsLeft(cond, l, r, w);
    PlanCosts(cond, l, r, w);
    if load.Always? { GreaterNeverSettled(l, r, w); }
    next := GeneratePlan(ctxt, p, t, f, w, load);
  }

  /** The branch of a plan and, if they are needed, its operands. */
  method GeneratePlan(ctxt: Context, p: Plan, t: int, f: int, w: Word, load: LoadMode) returns (next: int)
    requires ctxt.Valid() && ctxt.Settled() && LocOk(ctxt.buffer, t) && LocOk(ctxt.buffer, f)
    requires p.Branch? && !IsConst(p.left, w)
    requires load.Always? ==> PlanVerdict(p, w) != Some(true) && t < f == |ctxt.buffer| - 1 && 0 <= f
    modifies ctxt`buffer, ctxt`cacheSize, ctxt`maxStackPtr, ctxt.basicActions, ctxt.cache
    ensures ctxt.Valid() && ctxt.Settled()
    ensures |ctxt.buffer| <= |old(ctxt.buffer)| + BRANCH_SIZE + (if load.Never? then 0 else PlanSize(p, w))
    ensures SlotsWithin(old(ctxt.maxStackPtr), ctxt.maxStackPtr, PlanSlots(p, w))
    ensures PlanBuilt(old(ctxt.buffer), ctxt.buffer, p, w, load, t, f, next)
  {
    var begin := ctxt.CurrentLoc();
    ghost var b := ctxt.buffer;
    next := GeneratePlanBranch(ctxt, p, t, f, w);
    if load.Always? || (!load.Never? && next > begin) {
      next := GeneratePlanLoad(ctxt, p, w, load, t, f, next, b);
    }
  }

  /** A single-word comparison that loads its own operands. */
  method GenerateWordTest(ctxt: Context, cond: Cond, l: Value, r: Value, t: int, f: int, w: Word) returns (next: int)
    requires ctxt.Valid() && ctxt.Settled() && LocOk(ctxt.buffer, t) && LocOk(ctxt.buffer, f) && !cond.Jset?
    modifies ctxt`buffer, ctxt`cacheSize, ctxt`maxStackPtr, ctxt.basicActions, ctxt.cache
    ensures ctxt.Valid() && ctxt.Settled()
    ensures |ctxt.buffer| <= |old(ctxt.buffer)| + BRANCH_SIZE + OperandSize(l, r)
    ensures SlotsWithin(old(ctxt.maxStackPtr), ctxt.maxStackPtr, OperandSlots(l, r))
    ensures WordBuilt(old(ctxt.buffer), ctxt.buffer, cond, l, r, w, t, f, next)
  {
    ghost var b := ctxt.buffer;
    next := GenerateCmp32(ctxt, cond, l, r, t, f, w, Normal);
    PlanIsWord(b, ctxt.buffer, cond, l, r, w, t, f, next);
  }

  /** "Greater" and "greater or equal". The high words are loaded once for two branches. */
  method GenerateInequality(ctxt: Context, cond: Cond, l: Value, r: Value, t: int, f: int) returns (next: int)
    requires ctxt.Valid() && ctxt.Settled() && LocOk(ctxt.buffer, t) && LocOk(ctxt.buffer, f)
    requires cond.Jgt? || cond.Jge?
    modifies ctxt`buffer, ctxt`cacheSize, ctxt`maxStackPtr, ctxt.basicActions, ctxt.cache
    ensures ctxt.Valid() && ctxt.Settled()
    ensures |ctxt.buffer| <= |old(ctxt.buffer)| + NumberSize(l, r)
    ensures SlotsWithin(old(ctxt.maxStackPtr), ctxt.maxStackPtr, OperandSlots(l, r))
    ensures NumberBuilt(old(ctxt.buffer), ctxt.buffer, cond, l, r, t, f, next)
  {
    ghost var b := ctxt.buffer;
    next := GenerateWordTest(ctxt, cond, l, r, t, f, Low);
    if l.Is64() || r.Is64() {
      next := GenerateHighTests(ctxt, cond, l, r, next, t, f, b);
    } else {
      NarrowBuilt(b, ctxt.buffer, cond, l, r, t, f, next);
    }
  }

  /** The tests on the high words, on top of the test on the low words at low; b is the code
      before that one. */
  method GenerateHighTests(ctxt: Context, cond: Cond, l: Value, r: Value, low: int, t: int, f: int,
                           ghost b: seq<Instr>) returns (next: int)
    requires ctxt.Valid() && ctxt.Settled() && LocOk(b, t) && LocOk(b, f)
    requires (cond.Jgt? || cond.Jge?) && (l.Is64() || r.Is64())
    requires WordBuilt(b, ctxt.buffer, cond, l, r, Low, t, f, low)
    modifies ctxt`buffer, ctxt`cacheSize, ctxt`maxStackPtr, ctxt.basicActions, ctxt.cache
    ensures ctxt.Valid() && ctxt.Settled()
    ensures |ctxt.buffer| <= |old(ctxt.buffer)| + 2 * BRANCH_SIZE + OperandSize(l, r)
    ensures SlotsWithin(old(ctxt.maxStackPtr), ctxt.maxStackPtr, OperandSlots(l, r))
    ensures NumberBuilt(b, ctxt.buffer, cond, l, r, t, f, next)
  {
    var begin := ctxt.CurrentLoc();
    ghost var b1 := ctxt.buffer;
    var mid := GenerateCmp32(ctxt, Jge, l, r, low, f, High, Never);
    if mid > begin {
      next := GenerateSharedTest(ctxt, cond, l, r, low, mid, t, f, b, b1);
    } else {
      assert ctxt.buffer == b1;
      next := GenerateApartTest(ctxt, cond, l, r, low, mid, t, f, b);
    }
  }

  /** The first test on the high words, when the second one has been settled as mid. */
  method GenerateApartTest(ctxt: Context, ghost cond: Cond, l: Value, r: Value, ghost low: int, mid: int, t: int,
                           ghost f: int, ghost b: seq<Instr>) returns (next: int)
    requires ctxt.Valid() && ctxt.Settled() && LocOk(b, t) && LocOk(b, f)
    requires (cond.Jgt? || cond.Jge?) && (l.Is64() || r.Is64())
    requires WordBuilt(b, ctxt.buffer, cond, l, r, Low, t, f, low) && LocOk(ctxt.buffer, mid)
    requires Lands(ctxt.buffer, ctxt.buffer, WordOutline(Jge, l, r, High), low, f, mid)
    modifies ctxt`buffer, ctxt`cacheSize, ctxt`maxStackPtr, ctxt.basicActions, ctxt.cache
    ensures ctxt.Valid() && ctxt.Settled()
    ensures |ctxt.buffer| <= |old(ctxt.buffer)| + BRANCH_SIZE + OperandSize(l, r)
    ensures SlotsWithin(old(ctxt.maxStackPtr), ctxt.maxStackPtr, OperandSlots(l, r))
    ensures NumberBuilt(b, ctxt.buffer, cond, l, r, t, f, next)
  {
    ghost var b1 := ctxt.buffer;
    next := GenerateWordTest(ctxt, Jgt, l, r, t, mid, High);
    OrderApartBuilt(b, b1, ctxt.buffer, cond, l, r, t, f, low, mid, next);
  }

  /** The first test on the high words, when the second one has emitted a branch at mid: the
      operands are loaded on top of both. */
  method GenerateSharedTest(ctxt: Context, cond: Cond, l: Value, r: Value, ghost low: int, mid: int, t: int,
                            ghost f: int, ghost b: seq<Instr>, ghost b1: seq<Instr>) returns (next: int)
    requires ctxt.Valid() && ctxt.Settled() && LocOk(b, t) && LocOk(b, f)
    requires (cond.Jgt? || cond.Jge?) && (l.Is64() || r.Is64())
    requires WordBuilt(b, b1, cond, l, r, Low, t, f, low)
    requires PlanBuilt(b1, ctxt.buffer, PlanCmp(Jge, l, r, High), High, Never, low, f, mid) && |b1| <= mid
    modifies ctxt`buffer, ctxt`cacheSize, ctxt`maxStackPtr, ctxt.basicActions, ctxt.cache
    ensures ctxt.Valid() && ctxt.Settled()
    ensures |ctxt.buffer| <= |old(ctxt.buffer)| + BRANCH_SIZE + OperandSize(l, r)
    ensures SlotsWithin(old(ctxt.maxStackPtr), ctxt.maxStackPtr, OperandSlots(l, r))
    ensures NumberBuilt(b, ctxt.buffer, cond, l, r, t, f, next)
  {
    ghost var b2 := ctxt.buffer;
    next := GenerateCmp32(ctxt, Jgt, l, r, t, mid, High, Always);
    OrderSharedBuilt(b, b1, b2, ctxt.buffer, cond, l, r, t, f, low, mid, next);
  }

  method GenerateEquality(ctxt: Context, l: Value, r: Value, t: int, f: int) returns (next: int)
    requires ctxt.Valid() && ctxt.Settled() && LocOk(ctxt.buffer, t) && LocOk(ctxt.buffer, f)
    modifies ctxt`buffer, ctxt`cacheSize, ctxt`maxStackPtr, ctxt.basicActions, ctxt.cache
    ensures ctxt.Valid() && ctxt.Settled()
    ensures |ctxt.buffer| <= |old(ctxt.buffer)| + NumberSize(l, r)
    ensures SlotsWithin(old(ctxt.maxStackPtr), ctxt.maxStackPtr, OperandSlots(l, r))
    ensures NumberBuilt(old(ctxt.buffer), ctxt.buffer, Jeq, l, r, t, f, next)
  {
    ghost var b := ctxt.buffer;
    next := GenerateWordTest(ctxt, Jeq, l, r, t, f, Low);
    if l.Is64() || r.Is64() {
      next := GenerateHighEquality(ctxt, l, r, next, t, f, b);
    } else {
      NarrowBuilt(b, ctxt.buffer, Jeq, l, r, t, f, next);
    }
  }

  method GenerateHighEquality(ctxt: Context, l: Value, r: Value, low: int, ghost t: int, f: int, ghost b: seq<Instr>)
    returns (next: int)
    requires ctxt.Valid() && ctxt.Settled() && LocOk(b, t) && LocOk(b, f) && (l.Is64() || r.Is64())
    requires WordBuilt(b, ctxt.buffer, Jeq, l, r, Low, t, f, low)
    modifies ctxt`buffer, ctxt`cacheSize, ctxt`maxStackPtr, ctxt.basicActions, ctxt.cache
    ensures ctxt.Valid() && ctxt.Settled()
    ensures |ctxt.buffer| <= |old(ctxt.buffer)| + BRANCH_SIZE + OperandSize(l, r)
    ensures SlotsWithin(old(ctxt.maxStackPtr), ctxt.maxStackPtr, OperandSlots(l, r))
    ensures NumberBuilt(b, ctxt.buffer, Jeq, l, r, t, f, next)
  {
    ghost var b1 := ctxt.buffer;
    next := GenerateWordTest(ctxt, Jeq, l, r, low, f, High);
    EqualityBuilt(b, b1, ctxt.buffer, l, r, t, f, low, next);
  }

  /** Code that continues at t when the expression holds and at f otherwise. */
  method GenerateExpr(ctxt: Context, e: BoolExpr, t: int, f: int) returns (next: int)
    requires ctxt.Valid() && ctxt.Settled() && LocOk(ctxt.buffer, t) && LocOk(ctxt.buffer, f) && NoTruthNode(e)
    modifies ctxt`buffer, ctxt`cacheSize, ctxt`maxStackPtr, ctxt.basicActions, ctxt.cache
    ensures ctxt.Valid() && ctxt.Settled() && old(ctxt.buffer) <= ctxt.buffer && LocOk(ctxt.buffer, next)
    ensures Decides(ctxt.buffer, next, HoldsOn(e), t, f)
    ensures ConditionBuilt(old(ctxt.buffer), ctxt.buffer, e, t, f, next)
    ensures SlotsWithin(old(ctxt.maxStackPtr), ctxt.maxStackPtr, ExprSlots(e))
    decreases e, 1
  {
    match e {
      case And(_, _) =>
        next := GenerateAnd(ctxt, e, t, f);
      case Or(_, _) =>
        next := GenerateOr(ctxt, e, t, f);
      case Not(c) =>
        ghost var b := ctxt.buffer;
        next := GenerateExpr(ctxt, c, f, t);
        NotBuilt(b, ctxt.buffer, e, t, f, next);
      case Compare(_, _, _) =>
        next := GenerateComparison(ctxt, e, t, f);
    }
  }

  method GenerateAnd(ctxt: Context, e: BoolExpr, t: int, f: int) returns (next: int)
    requires ctxt.Valid() && ctxt.Settled() && LocOk(ctxt.buffer, t) && LocOk(ctxt.buffer, f)
    requires NoTruthNode(e) && e.And?
    modifies ctxt`buffer, ctxt`cacheSize, ctxt`maxStackPtr, ctxt.basicActions, ctxt.cache
    ensures ctxt.Valid() && ctxt.Settled()
    ensures ConditionBuilt(old(ctxt.buffer), ctxt.buffer, e, t, f, next)
    ensures SlotsWithin(old(ctxt.maxStackPtr), ctxt.maxStackPtr, ExprSlots(e))
    decreases e, 0
  {
    ghost var b := ctxt.buffer;
    var mid := GenerateExpr(ctxt, e.right, t, f);
    ghost var b1 := ctxt.buffer;
    next := GenerateExpr(ctxt, e.left, mid, f);
    AndBuilt(b, b1, ctxt.buffer, e, t, f, mid, next);
  }

  method GenerateOr(ctxt: Context, e: BoolExpr, t: int, f: int) returns (next: int)
    requires ctxt.Valid() && ctxt.Settled() && LocOk(ctxt.buffer, t) && LocOk(ctxt.buffer, f)
    requires NoTruthNode(e) && e.Or?
    modifies ctxt`buffer, ctxt`cacheSize, ctxt`maxStackPtr, ctxt.basicActions, ctxt.cache
    ensures ctxt.Valid() && ctxt.Settled()
    ensures ConditionBuilt(old(ctxt.buffer), ctxt.buffer, e, t, f, next)
    ensures SlotsWithin(old(ctxt.maxStackPtr), ctxt.maxStackPtr, ExprSlots(e))
    decreases e, 0
  {
    ghost var b := ctxt.buffer;
    var mid := GenerateExpr(ctxt, e.right, t, f);
    ghost var b1 := ctxt.buffer;
    next := GenerateExpr(ctxt, e.left, t, mid);
    OrBuilt(b, b1, ctxt.buffer, e, t, f, mid, next);
  }

  method GenerateComparison(ctxt: Context, e: BoolExpr, t: int, f: int) returns (next: int)
    requires ctxt.Valid() && ctxt.Settled() && LocOk(ctxt.buffer, t) && LocOk(ctxt.buffer, f) && e.Compare?
    modifies ctxt`buffer, ctxt`cacheSize, ctxt`maxStackPtr, ctxt.basicActions, ctxt.cache
    ensures ctxt.Valid() && ctxt.Settled()
    ensures ConditionBuilt(old(ctxt.buffer), ctxt.buffer, e, t, f, next)
    ensures SlotsWithin(old(ctxt.maxStackPtr), ctxt.maxStackPtr, ExprSlots(e))
  {
    var (yes, no) := if Exchanged(e.op) then (f, t) else (t, f);
    if e.op.Eq? || e.op.Neq? {
      next := GenerateEquality(ctxt, e.lhs, e.rhs, yes, no);
    } else {
      next := GenerateInequality(ctxt, CondOf(e.op), e.lhs, e.rhs, yes, no);
    }
    CompareBuilt(old(ctxt.buffer), ctxt.buffer, e, t, f, yes, no, next);
  }
}
