/** How one 32-bit comparison is turned into at most one branch. */
module Comparisons {
  import opened Words
  import opened Bpf
  import opened Expression
  import opened CodeSize
  import opened Constants
  import opened LoadCode

  /** A comparison of two words: already decided, or a branch on left against right whose
      sides are exchanged when flipped is set. */
  datatype Plan =
    | Decided(outcome: bool)
    | Branch(cond: Cond, left: Value, right: Value, flipped: bool)

  /** The branch condition that tests a comparison, or its negation when sides are exchanged. */
  function CondOf(op: CmpOp): Cond {
    match op
    case Gt => Jgt
    case Le => Jgt
    case Ge => Jge
    case Lt => Jge
    case Eq => Jeq
    case Neq => Jeq
  }

  predicate Exchanged(op: CmpOp) {
    op.Le? || op.Lt? || op.Neq?
  }

  /** Constant operands are moved to the right, and a conjunction compared with zero becomes
      a bit test of its operands. */
  function PlanCmp(cond: Cond, l: Value, r: Value, w: Word): Plan {
    if IsConst(l, w) && IsConst(r, w) then
      Decided(Test(cond, WordConst(l, w).value, WordConst(r, w).value))
    else if IsConst(l, w) then
      if cond.Jgt? then BitTest(Jge, r, l, true, w)
      else if cond.Jge? then BitTest(Jgt, r, l, true, w)
      else BitTest(cond, r, l, false, w)
    else BitTest(cond, l, r, false, w)
  }

  function BitTest(cond: Cond, l: Value, r: Value, flipped: bool, w: Word): Plan {
    if (cond.Jeq? || cond.Jgt?) && l.Bits? && l.op.BitAndOp? && WordConst(r, w) == Some(0) then
      var (left, right) := if IsConst(l.left, w) then (l.right, l.left) else (l.left, l.right);
      Branch(Jset, left, right, if cond.Jeq? then !flipped else flipped)
    else Branch(cond, l, r, flipped)
  }

  /** The registers on which the branch of a plan decides the comparison. The last clause
      holds what loading a conjunction leaves in X, for a branch that tests its operands. */
  ghost predicate Ready(p: Plan, w: Word, r: Regs, d: Data)
    requires p.Branch?
  {
    && r.a == WordVal(p.left, w, d)
    && (!IsConst(p.right, w) ==> r.x == WordVal(p.right, w, d))
    && (IsConst(p.right, w) && UsesIndex(p.left, w) ==> r.x == WordVal(p.left.right, w, d))
  }

  /** Registers on which the branch of a plan decides the comparison. */
  ghost function ReadyRegs(p: Plan, w: Word, d: Data): (r: Regs)
    requires p.Branch?
    ensures Ready(p, w, r, d)
  {
    Regs(WordVal(p.left, w, d),
         if !IsConst(p.right, w) then WordVal(p.right, w, d)
         else if UsesIndex(p.left, w) then WordVal(p.left.right, w, d) else 0,
         map[])
  }

  /** What the branch compares A with. */
  function RightWord(p: Plan, w: Word, r: Regs): u32
    requires p.Branch?
  {
    if IsConst(p.right, w) then WordConst(p.right, w).value else r.x
  }

  /** Whether the branch continues at the side meant for "holds". */
  function BranchHolds(p: Plan, w: Word, r: Regs): bool
    requires p.Branch?
  {
    Test(p.cond, r.a, RightWord(p, w, r)) != p.flipped
  }

  function WordTest(cond: Cond, l: Value, r: Value, w: Word, d: Data): bool {
    Test(cond, WordVal(l, w, d), WordVal(r, w, d))
  }

  /** A test for "greater" fails on some registers, so constants can only settle it that way. */
  lemma GreaterCanFail(l: Value, r: Value, w: Word) returns (regs: Regs)
    requires PlanCmp(Jgt, l, r, w).Branch?
    ensures !BranchHolds(PlanCmp(Jgt, l, r, w), w, regs)
  {
    var p := PlanCmp(Jgt, l, r, w);
    regs := Regs(if p.cond.Jge? then UINT32_MAX else 0, 0, map[]);
    Word32Laws(RightWord(p, w, regs), 0);
  }

  /** A branch always has a left operand to load. */
  lemma PlanLoadsLeft(cond: Cond, l: Value, r: Value, w: Word)
    requires PlanCmp(cond, l, r, w).Branch?
    ensures !IsConst(PlanCmp(cond, l, r, w).left, w)
  {
  }

  /** A comparison with its constant on the right, or the bit test it becomes. */
  lemma BitTestCorrect(cond: Cond, l: Value, r: Value, flipped: bool, w: Word, d: Data, regs: Regs)
    requires !cond.Jset? && !IsConst(l, w)
    requires Ready(BitTest(cond, l, r, flipped, w), w, regs, d)
    ensures BranchHolds(BitTest(cond, l, r, flipped, w), w, regs) == (WordTest(cond, l, r, w, d) != flipped)
  {
    var p := BitTest(cond, l, r, flipped, w);
    if IsConst(p.right, w) { WordConstSound(p.right, w, d); }
    if p.cond.Jset? {
      WordConstSound(r, w, d);
      BitsByWord(l, w, d);
      Word32Laws(WordVal(l.left, w, d), WordVal(l.right, w, d));
    }
  }

  /** A plan decides the comparison it was made for. */
  lemma PlanCorrect(cond: Cond, l: Value, r: Value, w: Word, d: Data)
    requires !cond.Jset?
    ensures var p := PlanCmp(cond, l, r, w);
            if p.Decided? then p.outcome == WordTest(cond, l, r, w, d)
            else forall regs :: Ready(p, w, regs, d) ==>
                   BranchHolds(p, w, regs) == WordTest(cond, l, r, w, d)
  {
    var p := PlanCmp(cond, l, r, w);
    if p.Decided? {
      WordConstSound(l, w, d);
      WordConstSound(r, w, d);
    } else {
      forall regs | Ready(p, w, regs, d) ensures BranchHolds(p, w, regs) == WordTest(cond, l, r, w, d) {
        if !IsConst(l, w) { BitTestCorrect(cond, l, r, false, w, d, regs); }
        else if cond.Jgt? { BitTestCorrect(Jge, r, l, true, w, d, regs); }
        else if cond.Jge? { BitTestCorrect(Jgt, r, l, true, w, d, regs); }
        else { BitTestCorrect(cond, r, l, false, w, d, regs); }
      }
    }
  }

  /** Instructions and scratch words to load the operands of a plan. */
  function PlanSize(p: Plan, w: Word): nat
    requires p.Branch?
  {
    if IsConst(p.right, w) then LoadSize(p.left) else OperandSize(p.left, p.right)
  }

  function PlanSlots(p: Plan, w: Word): nat
    requires p.Branch?
  {
    if IsConst(p.right, w) then LoadSlots(p.left) else OperandSlots(p.left, p.right)
  }

  /** The operands of a plan take no more code and scratch words than those of the comparison. */
  lemma PlanCosts(cond: Cond, l: Value, r: Value, w: Word)
    requires PlanCmp(cond, l, r, w).Branch?
    ensures PlanSize(PlanCmp(cond, l, r, w), w) <= OperandSize(l, r)
    ensures PlanSlots(PlanCmp(cond, l, r, w), w) <= OperandSlots(l, r)
  {
    if !IsConst(l, w) { BitTestCosts(cond, l, r, false, w); }
    else if cond.Jgt? { BitTestCosts(Jge, r, l, true, w); }
    else if cond.Jge? { BitTestCosts(Jgt, r, l, true, w); }
    else { BitTestCosts(cond, r, l, false, w); }
  }

  lemma {:induction false} BitTestCosts(cond: Cond, l: Value, r: Value, flipped: bool, w: Word)
    ensures var p := BitTest(cond, l, r, flipped, w);
            if IsConst(p.right, w)
            then PlanSize(p, w) <= LoadSize(l) && PlanSlots(p, w) <= LoadSlots(l)
            else PlanSize(p, w) <= OperandSize(l, r) && PlanSlots(p, w) <= OperandSlots(l, r)
  {
  }

  /** A constant that settles the test, so that no branch is needed. */
  predicate SettlesTest(cond: Cond, k: u32) {
    (cond.Jge? && k == 0) || (cond.Jgt? && k == UINT32_MAX) || (cond.Jset? && k == 0)
  }

  predicate Settles(p: Plan, w: Word)
    requires p.Branch?
  {
    IsConst(p.right, w) && SettlesTest(p.cond, WordConst(p.right, w).value)
  }

  /** The high words are compared twice but loaded once: registers loaded for ">" also decide
      ">=". When ">=" has become a bit test of a & b, the load leaves a & b in A, and testing
      that against b is the same as testing a. */
  lemma OneLoadServesBoth(l: Value, r: Value, w: Word, regs: Regs, d: Data)
    requires var p := PlanCmp(Jge, l, r, w); p.Branch? && !Settles(p, w)
    requires var q := PlanCmp(Jgt, l, r, w); q.Branch? && Ready(q, w, regs, d)
    ensures BranchHolds(PlanCmp(Jge, l, r, w), w, regs) == WordTest(Jge, l, r, w, d)
  {
    var p, q := PlanCmp(Jge, l, r, w), PlanCmp(Jgt, l, r, w);
    PlanCorrect(Jge, l, r, w, d);
    if p.cond.Jset? {
      // the constant on the left is 0, and r is the conjunction
      var a, b := WordVal(r.left, w, d), WordVal(r.right, w, d);
      WordConstSound(l, w, d);
      BitsByWord(r, w, d);
      Word32Laws(a, b);
      Word32Laws(b, a);
      if IsConst(p.right, w) { WordConstSound(p.right, w, d); }
      assert q == Branch(Jge, r, l, true);
      assert regs.a == And32(a, b);
    } else {
      assert Ready(p, w, regs, d);
    }
  }
}
