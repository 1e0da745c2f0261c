/** What the generator settles while it emits code for a condition, told from the tree alone. */
module Outlines {
  import opened Words
  import opened Bpf
  import opened Expression
  import opened CodeSize
  import opened Comparisons

  /** The code of a condition between two different targets: the target that constants settle on,
      if they do; whether any code is emitted; and whether a condition that is not settled starts
      at the instruction emitted last. */
  datatype Outline = Outline(verdict: Option<bool>, emits: bool, onTop: bool)

  const BRANCHING := Outline(None, true, true)

  /** The verdict of constants on a planned comparison. */
  function PlanVerdict(p: Plan, w: Word): Option<bool> {
    if p.Decided? then Some(p.outcome)
    else if Settles(p, w) then Some(p.cond.Jge? != p.flipped)
    else None
  }

  function WordVerdict(cond: Cond, l: Value, r: Value, w: Word): Option<bool> {
    PlanVerdict(PlanCmp(cond, l, r, w), w)
  }

  /** The code of a single test: a branch, unless the test is settled. */
  function TestOutline(verdict: Option<bool>): Outline {
    Outline(verdict, verdict.None?, true)
  }

  function WordOutline(cond: Cond, l: Value, r: Value, w: Word): Outline {
    TestOutline(WordVerdict(cond, l, r, w))
  }

  function Negated(o: Outline): Outline {
    o.(verdict := if o.verdict.Some? then Some(!o.verdict.value) else None)
  }

  /** A conjunction emits its right operand first. A left operand with equal targets emits
      nothing. */
  function AndOutline(l: Outline, r: Outline): Outline {
    if r.verdict.Some? then
      if r.verdict.value then Outline(l.verdict, l.emits || r.emits, l.onTop) else r
    else if l.verdict.Some? then
      if l.verdict.value then Outline(None, true, r.onTop && !l.emits) else Outline(Some(false), true, true)
    else Outline(None, true, l.onTop)
  }

  /** A disjunction is a conjunction with the targets exchanged. */
  function OrOutline(l: Outline, r: Outline): Outline {
    Negated(AndOutline(Negated(l), Negated(r)))
  }

  /** "Greater" and "greater or equal" on two words. */
  function OrderOutline(cond: Cond, l: Value, r: Value): Outline {
    OrOutline(WordOutline(Jgt, l, r, High), AndOutline(WordOutline(Jge, l, r, High), WordOutline(cond, l, r, Low)))
  }

  function EqualOutline(l: Value, r: Value): Outline {
    AndOutline(WordOutline(Jeq, l, r, High), WordOutline(Jeq, l, r, Low))
  }

  function NumberOutline(cond: Cond, l: Value, r: Value): Outline {
    if !l.Is64() && !r.Is64() then WordOutline(cond, l, r, Low)
    else if cond.Jeq? then EqualOutline(l, r)
    else OrderOutline(cond, l, r)
  }

  function OutlineOf(e: BoolExpr): Outline {
    match e
    case True => Outline(Some(true), false, true)
    case False => Outline(Some(false), false, true)
    case Not(c) => Negated(OutlineOf(c))
    case And(l, r) => AndOutline(OutlineOf(l), OutlineOf(r))
    case Or(l, r) => OrOutline(OutlineOf(l), OutlineOf(r))
    case Compare(op, l, r) =>
      var o := NumberOutline(CondOf(op), l, r);
      if Exchanged(op) then Negated(o) else o
  }

  /** What the code emitted last tests. For a comparison that is settled after all, it is the
      test of the low words. */
  predicate TopHolds(e: BoolExpr, d: Data) {
    match e
    case True => true
    case False => false
    case Not(c) => !TopHolds(c, d)
    case And(l, r) =>
      if OutlineOf(l).emits && OutlineOf(r).verdict != Some(false) then TopHolds(l, d) && Holds(r, d)
      else TopHolds(r, d)
    case Or(l, r) =>
      if OutlineOf(l).emits && OutlineOf(r).verdict != Some(true) then TopHolds(l, d) || Holds(r, d)
      else TopHolds(r, d)
    case Compare(op, l, r) =>
      if OutlineOf(e).verdict.None? then Holds(e, d)
      else WordTest(CondOf(op), l, r, Low, d) != Exchanged(op)
  }

  // ----- conditions without settled comparisons -----

  /** No comparison is settled by constants. */
  predicate Open(e: BoolExpr) {
    match e
    case True => true
    case False => true
    case Not(c) => Open(c)
    case And(l, r) => Open(l) && Open(r)
    case Or(l, r) => Open(l) && Open(r)
    case Compare(_, _, _) => OutlineOf(e).verdict.None?
  }

  /** All code of such a condition is reached, and the condition starts at the last of it. */
  lemma {:induction false} OpenBranches(e: BoolExpr)
    requires Open(e) && NoTruthNode(e)
    ensures OutlineOf(e) == BRANCHING
  {
    match e
    case Not(c) => OpenBranches(c);
    case And(l, r) => OpenBranches(l); OpenBranches(r);
    case Or(l, r) => OpenBranches(l); OpenBranches(r);
    case Compare(op, l, r) => OpenComparison(CondOf(op), l, r);
  }

  lemma OpenComparison(cond: Cond, l: Value, r: Value)
    requires NumberOutline(cond, l, r).verdict.None?
    ensures NumberOutline(cond, l, r) == BRANCHING
  {
    OpenJunction(WordOutline(Jeq, l, r, High), WordOutline(Jeq, l, r, Low));
    OpenJunction(WordOutline(Jge, l, r, High), WordOutline(cond, l, r, Low));
    OpenJunction(Negated(WordOutline(Jgt, l, r, High)),
                 Negated(AndOutline(WordOutline(Jge, l, r, High), WordOutline(cond, l, r, Low))));
  }

  /** One test of a word on top of anything whose code, unless it is settled, is all reached. */
  lemma OpenJunction(l: Outline, r: Outline)
    requires l.onTop && (l.emits <==> l.verdict.None?) && (r.verdict.None? ==> r == BRANCHING)
    ensures AndOutline(l, r).verdict.None? ==> AndOutline(l, r) == BRANCHING
  {
  }

  /** Constants settle no comparison of an argument with a number that both outcomes are possible for. */
  lemma {:induction false} ArgComparisonOpen(op: CmpOp, arg: ArgIndex, size: int, n: u64)
    requires match op
             case Eq => true
             case Neq => true
             case Gt => n != if size == 8 || n > 0xFFFF_FFFF then 0xFFFF_FFFF_FFFF_FFFF else 0xFFFF_FFFF
             case Le => n != if size == 8 || n > 0xFFFF_FFFF then 0xFFFF_FFFF_FFFF_FFFF else 0xFFFF_FFFF
             case Ge => n != 0
             case Lt => n != 0
    ensures Open(Compare(op, Var(arg, size), Num(n)))
  {
    var l, r := Var(arg, size), Num(n);
    forall cond: Cond, w: Word ensures PlanCmp(cond, l, r, w) == Branch(cond, l, r, false) {
    }
    if l.Is64() || r.Is64() {
      assert n == WordOf(n, High) * TWO_32 + WordOf(n, Low);
    }
  }

  // ----- the verdicts are right -----

  lemma WordVerdictSound(cond: Cond, l: Value, r: Value, w: Word, d: Data)
    requires !cond.Jset? && WordVerdict(cond, l, r, w).Some?
    ensures WordTest(cond, l, r, w, d) == WordVerdict(cond, l, r, w).value
  {
    var p := PlanCmp(cond, l, r, w);
    PlanCorrect(cond, l, r, w, d);
    if p.Branch? {
      var regs := ReadyRegs(p, w, d);
      Word32Laws(regs.a, 0);
      assert BranchHolds(p, w, regs) == WordTest(cond, l, r, w, d);
    }
  }

  /** A branch for "greater" is never settled in favour of it. */
  lemma GreaterNeverSettled(l: Value, r: Value, w: Word)
    requires PlanCmp(Jgt, l, r, w).Branch?
    ensures WordVerdict(Jgt, l, r, w) != Some(true)
  {
  }

  // ----- what is limited about the code of a condition -----

  /** Its length; the same for the conditions of one system call only; whether it needs too many
      scratch words; and whether it has comparisons that constants settle. */
  datatype Limit = Length | At(nr: u32) | Scratch | Loose
  {
    predicate Counts(number: u32) { At? ==> nr == number }
  }

  function CondCost(e: BoolExpr, limit: Limit): nat {
    match limit
    case Length => ExprSize(e)
    case At(_) => ExprSize(e)
    case Scratch => if ExprSlots(e) > BPF_MEMWORDS then 1 else 0
    case Loose => if Open(e) then 0 else 1
  }
}
