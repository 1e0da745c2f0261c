/** What the code of a comparison does: from words to 64-bit numbers. */
module CompareCode {
  import opened Words
  import opened Bpf
  import opened Expression
  import opened Constants
  import opened LoadCode
  import opened Comparisons
  import opened CodeMeaning

  /** From loc, code behaves as from t on inputs that pass the test and as from f on the
      others, whatever the registers and scratch words. */
  ghost predicate Decides(buf: seq<Instr>, loc: int, test: Data -> bool, t: int, f: int)
    requires LocOk(buf, loc) && LocOk(buf, t) && LocOk(buf, f)
  {
    forall d: Data, res: Outcome ::
      Yields(buf, Pick(test(d), t, f), d, res) ==> Yields(buf, loc, d, res)
  }

  lemma DecidesExtends(buf: seq<Instr>, more: seq<Instr>, loc: int, test: Data -> bool, t: int, f: int)
    requires LocOk(buf, loc) && LocOk(buf, t) && LocOk(buf, f) && buf <= more
    requires Decides(buf, loc, test, t, f)
    ensures Decides(more, loc, test, t, f)
  {
    forall d: Data, res: Outcome | Yields(more, Pick(test(d), t, f), d, res) ensures Yields(more, loc, d, res) {
      YieldsExtends(buf, more, Pick(test(d), t, f), d, res);
      YieldsExtends(buf, more, loc, d, res);
    }
  }

  ghost function WordTestOn(cond: Cond, l: Value, r: Value, w: Word): Data -> bool {
    (d: Data) => WordTest(cond, l, r, w, d)
  }

  ghost function NumberTestOn(cond: Cond, l: Value, r: Value): Data -> bool
    requires !cond.Jset?
  {
    (d: Data) => NumberTest(cond, l, r, d)
  }

  /** A comparison of numbers looks at both words if one side is wide. */
  ghost function NumberOn(cond: Cond, l: Value, r: Value): Data -> bool
    requires !cond.Jset?
  {
    if l.Is64() || r.Is64() then NumberTestOn(cond, l, r) else WordTestOn(cond, l, r, Low)
  }

  ghost function BothOn(p: Data -> bool, q: Data -> bool): Data -> bool {
    (d: Data) => p(d) && q(d)
  }

  ghost function HoldsOn(e: BoolExpr): Data -> bool {
    (d: Data) => Holds(e, d)
  }

  /** A branch without a load: it tests the registers it is reached with. */
  ghost predicate BareBranch(buf: seq<Instr>, loc: int, p: Plan, w: Word, t: int, f: int)
    requires p.Branch? && LocOk(buf, loc) && LocOk(buf, t) && LocOk(buf, f)
  {
    forall r: Regs, d: Data ::
      OutcomeAt(buf, loc, r, d) == OutcomeAt(buf, Pick(BranchHolds(p, w, r), t, f), r, d)
  }

  lemma BareBranchExtends(buf: seq<Instr>, more: seq<Instr>, loc: int, p: Plan, w: Word, t: int, f: int)
    requires p.Branch? && LocOk(buf, loc) && LocOk(buf, t) && LocOk(buf, f) && buf <= more
    requires BareBranch(buf, loc, p, w, t, f)
    ensures BareBranch(more, loc, p, w, t, f)
  {
    forall r: Regs, d: Data
      ensures OutcomeAt(more, loc, r, d) == OutcomeAt(more, Pick(BranchHolds(p, w, r), t, f), r, d)
    {
      OutcomeExtends(AsMeant, buf, more, loc, r, d);
      OutcomeExtends(AsMeant, buf, more, Pick(BranchHolds(p, w, r), t, f), r, d);
      assert OutcomeAt(buf, loc, r, d) == OutcomeAt(buf, Pick(BranchHolds(p, w, r), t, f), r, d);
    }
  }

  /** Loads and branches, and arrives on either side with the operands still in A and X. */
  ghost predicate LoadedBranchOn(buf: seq<Instr>, loc: int, p: Plan, w: Word, t: int, f: int, r: Regs, d: Data)
    requires p.Branch? && LocOk(buf, loc) && LocOk(buf, t) && LocOk(buf, f)
  {
    exists r' :: Ready(p, w, r', d)
                 && OutcomeAt(buf, loc, r, d) == OutcomeAt(buf, Pick(BranchHolds(p, w, r'), t, f), r', d)
  }

  ghost predicate LoadedBranch(buf: seq<Instr>, loc: int, p: Plan, w: Word, t: int, f: int)
    requires p.Branch? && LocOk(buf, loc) && LocOk(buf, t) && LocOk(buf, f)
  {
    forall r: Regs, d: Data :: LoadedBranchOn(buf, loc, p, w, t, f, r, d)
  }

  /** Operand-loading code on top of a branch, or of nothing when the branch was settled. */
  ghost predicate OperandsLoad(buf0: seq<Instr>, buf: seq<Instr>, p: Plan, w: Word)
    requires p.Branch?
  {
    if IsConst(p.right, w) then Loads(buf0, buf, p.left, w, 0)
    else PairLoads(buf0, buf, p.left, p.right, w, 0)
  }

  lemma LoadThenBranch(buf0: seq<Instr>, buf: seq<Instr>, p: Plan, w: Word, t: int, f: int)
    requires p.Branch? && buf0 != [] && buf0 <= buf && |buf0| < |buf|
    requires LocOk(buf0, |buf0| - 1) && LocOk(buf, |buf| - 1) && LocOk(buf0, t) && LocOk(buf0, f)
    requires BareBranch(buf0, |buf0| - 1, p, w, t, f) && OperandsLoad(buf0, buf, p, w)
    ensures LoadedBranch(buf, |buf| - 1, p, w, t, f)
  {
    var loc := |buf| - 1;
    forall r: Regs, d: Data ensures LoadedBranchOn(buf, loc, p, w, t, f, r, d) {
      var r' := OperandsReady(buf0, buf, p, w, r, d);
      OutcomeExtends(AsMeant, buf0, buf, Pick(BranchHolds(p, w, r'), t, f), r', d);
      assert OutcomeAt(buf0, |buf0| - 1, r', d) == OutcomeAt(buf0, Pick(BranchHolds(p, w, r'), t, f), r', d);
    }
  }

  lemma OperandsReady(buf0: seq<Instr>, buf: seq<Instr>, p: Plan, w: Word, r: Regs, d: Data) returns (r': Regs)
    requires p.Branch? && OperandsLoad(buf0, buf, p, w)
    ensures Ready(p, w, r', d)
    ensures Run(AsMeant, buf, |buf| - 1, r, d) == Run(AsMeant, buf0, |buf0| - 1, r', d)
  {
    if IsConst(p.right, w) {
      assert LoadsOn(buf0, buf, p.left, w, 0, r, d);
      r' :| Loaded(p.left, w, 0, r, r', d)
            && Run(AsMeant, buf, |buf| - 1, r, d) == Run(AsMeant, buf0, |buf0| - 1, r', d);
    } else {
      assert PairLoadsOn(buf0, buf, p.left, p.right, w, 0, r, d);
      r' :| PairLoaded(p.left, p.right, w, 0, r, r', d)
            && Run(AsMeant, buf, |buf| - 1, r, d) == Run(AsMeant, buf0, |buf0| - 1, r', d);
    }
  }

  /** The registers a loaded branch arrives with. */
  lemma BranchRegs(buf: seq<Instr>, loc: int, cond: Cond, l: Value, r: Value, w: Word, t: int, f: int,
                   regs: Regs, d: Data) returns (regs': Regs)
    requires !cond.Jset? && LocOk(buf, loc) && LocOk(buf, t) && LocOk(buf, f)
    requires var p := PlanCmp(cond, l, r, w); p.Branch? && LoadedBranch(buf, loc, p, w, t, f)
    ensures Ready(PlanCmp(cond, l, r, w), w, regs', d)
    ensures OutcomeAt(buf, loc, regs, d) == OutcomeAt(buf, Pick(WordTest(cond, l, r, w, d), t, f), regs', d)
  {
    var p := PlanCmp(cond, l, r, w);
    PlanCorrect(cond, l, r, w, d);
    assert LoadedBranchOn(buf, loc, p, w, t, f, regs, d);
    regs' :| Ready(p, w, regs', d)
             && OutcomeAt(buf, loc, regs, d) == OutcomeAt(buf, Pick(BranchHolds(p, w, regs'), t, f), regs', d);
  }

  lemma LoadedBranchDecides(buf: seq<Instr>, loc: int, cond: Cond, l: Value, r: Value, w: Word, t: int, f: int)
    requires !cond.Jset? && LocOk(buf, loc) && LocOk(buf, t) && LocOk(buf, f)
    requires var p := PlanCmp(cond, l, r, w); p.Branch? && LoadedBranch(buf, loc, p, w, t, f)
    ensures Decides(buf, loc, WordTestOn(cond, l, r, w), t, f)
  {
    forall d: Data, res: Outcome | Yields(buf, Pick(WordTest(cond, l, r, w, d), t, f), d, res)
      ensures Yields(buf, loc, d, res)
    {
      forall regs ensures OutcomeAt(buf, loc, regs, d) == res {
        var regs' := BranchRegs(buf, loc, cond, l, r, w, t, f, regs, d);
      }
    }
  }

  /** A comparison of numbers that looks at both words. */
  predicate NumberTest(cond: Cond, l: Value, r: Value, d: Data)
    requires !cond.Jset?
  {
    match cond
    case Jeq => ValueOf(l, d) == ValueOf(r, d)
    case Jgt => ValueOf(l, d) > ValueOf(r, d)
    case Jge => ValueOf(l, d) >= ValueOf(r, d)
  }

  /** A 64-bit order test by words, in the order the code makes the tests. */
  lemma NumberTestByWord(cond: Cond, l: Value, r: Value, d: Data)
    requires cond.Jgt? || cond.Jge?
    ensures NumberTest(cond, l, r, d)
        <==> WordTest(Jgt, l, r, High, d) || (WordTest(Jge, l, r, High, d) && WordTest(cond, l, r, Low, d))
  {
    OrderByWord(ValueOf(l, d), ValueOf(r, d));
  }

  /** Code for one test that continues, where it holds, at code for another. */
  lemma AndDecides(buf: seq<Instr>, loc: int, mid: int, p: Data -> bool, q: Data -> bool, both: Data -> bool,
                   t: int, f: int)
    requires LocOk(buf, loc) && LocOk(buf, mid) && LocOk(buf, t) && LocOk(buf, f)
    requires Decides(buf, mid, q, t, f) && Decides(buf, loc, p, mid, f)
    requires forall d :: both(d) == (p(d) && q(d))
    ensures Decides(buf, loc, both, t, f)
  {
    forall d: Data, res: Outcome | Yields(buf, Pick(both(d), t, f), d, res) ensures Yields(buf, loc, d, res) {
      assert Yields(buf, Pick(q(d), t, f), d, res) ==> Yields(buf, mid, d, res);
      assert Yields(buf, Pick(p(d), mid, f), d, res);
    }
  }

  lemma OrDecides(buf: seq<Instr>, loc: int, mid: int, p: Data -> bool, q: Data -> bool, either: Data -> bool,
                  t: int, f: int)
    requires LocOk(buf, loc) && LocOk(buf, mid) && LocOk(buf, t) && LocOk(buf, f)
    requires Decides(buf, mid, q, t, f) && Decides(buf, loc, p, t, mid)
    requires forall d :: either(d) == (p(d) || q(d))
    ensures Decides(buf, loc, either, t, f)
  {
    forall d: Data, res: Outcome | Yields(buf, Pick(either(d), t, f), d, res) ensures Yields(buf, loc, d, res) {
      assert Yields(buf, Pick(q(d), t, f), d, res) ==> Yields(buf, mid, d, res);
      assert Yields(buf, Pick(p(d), t, mid), d, res);
    }
  }

  /** The same test, or with the targets exchanged its negation. */
  lemma SameDecides(buf: seq<Instr>, loc: int, p: Data -> bool, q: Data -> bool, exchanged: bool, t: int, f: int)
    requires LocOk(buf, loc) && LocOk(buf, t) && LocOk(buf, f)
    requires if exchanged then Decides(buf, loc, p, f, t) else Decides(buf, loc, p, t, f)
    requires forall d :: q(d) == (p(d) != exchanged)
    ensures Decides(buf, loc, q, t, f)
  {
    forall d: Data, res: Outcome | Yields(buf, Pick(q(d), t, f), d, res) ensures Yields(buf, loc, d, res) {
      assert if exchanged then Yields(buf, Pick(p(d), f, t), d, res) else Yields(buf, Pick(p(d), t, f), d, res);
    }
  }

  lemma EqualityByWord(buf: seq<Instr>, low: int, high: int, l: Value, r: Value, t: int, f: int)
    requires LocOk(buf, low) && LocOk(buf, high) && LocOk(buf, t) && LocOk(buf, f)
    requires Decides(buf, low, WordTestOn(Jeq, l, r, Low), t, f)
    requires Decides(buf, high, WordTestOn(Jeq, l, r, High), low, f)
    ensures Decides(buf, high, NumberTestOn(Jeq, l, r), t, f)
  {
    forall d: Data
      ensures NumberTest(Jeq, l, r, d) == (WordTest(Jeq, l, r, High, d) && WordTest(Jeq, l, r, Low, d))
    {
      OrderByWord(ValueOf(l, d), ValueOf(r, d));
    }
    AndDecides(buf, high, low, WordTestOn(Jeq, l, r, High), WordTestOn(Jeq, l, r, Low), NumberTestOn(Jeq, l, r), t, f);
  }

  /** The ordered comparison when the second test on the high words emitted a branch: it is
      reached from the first one with the operands still loaded. */
  lemma InequalityShared(buf: seq<Instr>, cond: Cond, l: Value, r: Value,
                         low: int, mid: int, top: int, t: int, f: int)
    requires cond.Jgt? || cond.Jge?
    requires LocOk(buf, low) && LocOk(buf, mid) && LocOk(buf, top) && LocOk(buf, t) && LocOk(buf, f)
    requires Decides(buf, low, WordTestOn(cond, l, r, Low), t, f)
    requires var p := PlanCmp(Jge, l, r, High);
             p.Branch? && !Settles(p, High) && BareBranch(buf, mid, p, High, low, f)
    requires var q := PlanCmp(Jgt, l, r, High); q.Branch? && LoadedBranch(buf, top, q, High, t, mid)
    ensures Decides(buf, top, NumberTestOn(cond, l, r), t, f)
  {
    forall d: Data, res: Outcome | Yields(buf, Pick(NumberTest(cond, l, r, d), t, f), d, res)
      ensures Yields(buf, top, d, res)
    {
      NumberTestByWord(cond, l, r, d);
      assert Yields(buf, Pick(WordTest(cond, l, r, Low, d), t, f), d, res) ==> Yields(buf, low, d, res);
      if WordTest(Jgt, l, r, High, d) {
        assert Yields(buf, t, d, res);
      } else {
        assert Yields(buf, Pick(WordTest(Jge, l, r, High, d), low, f), d, res);
      }
      SharedTestYields(buf, l, r, low, mid, top, t, f, d, res);
    }
  }

  /** Both tests on the high words, on one input. */
  lemma SharedTestYields(buf: seq<Instr>, l: Value, r: Value, low: int, mid: int, top: int, t: int, f: int,
                         d: Data, res: Outcome)
    requires LocOk(buf, low) && LocOk(buf, mid) && LocOk(buf, top) && LocOk(buf, t) && LocOk(buf, f)
    requires var p := PlanCmp(Jge, l, r, High);
             p.Branch? && !Settles(p, High) && BareBranch(buf, mid, p, High, low, f)
    requires var q := PlanCmp(Jgt, l, r, High); q.Branch? && LoadedBranch(buf, top, q, High, t, mid)
    requires if WordTest(Jgt, l, r, High, d) then Yields(buf, t, d, res)
             else Yields(buf, Pick(WordTest(Jge, l, r, High, d), low, f), d, res)
    ensures Yields(buf, top, d, res)
  {
    forall regs ensures OutcomeAt(buf, top, regs, d) == res {
      var regs' := BranchRegs(buf, top, Jgt, l, r, High, t, mid, regs, d);
      if !WordTest(Jgt, l, r, High, d) {
        OneLoadServesBoth(l, r, High, regs', d);
        assert OutcomeAt(buf, mid, regs', d) == OutcomeAt(buf, Pick(WordTest(Jge, l, r, High, d), low, f), regs', d);
      }
    }
  }

  /** The ordered comparison when the second test on the high words needed no code. */
  lemma InequalityApart(buf: seq<Instr>, cond: Cond, l: Value, r: Value,
                        low: int, mid: int, top: int, t: int, f: int)
    requires cond.Jgt? || cond.Jge?
    requires LocOk(buf, low) && LocOk(buf, mid) && LocOk(buf, top) && LocOk(buf, t) && LocOk(buf, f)
    requires Decides(buf, low, WordTestOn(cond, l, r, Low), t, f)
    requires Decides(buf, mid, WordTestOn(Jge, l, r, High), low, f)
    requires Decides(buf, top, WordTestOn(Jgt, l, r, High), t, mid)
    ensures Decides(buf, top, NumberTestOn(cond, l, r), t, f)
  {
    var gt, ge, lowTest := WordTestOn(Jgt, l, r, High), WordTestOn(Jge, l, r, High), WordTestOn(cond, l, r, Low);
    AndDecides(buf, mid, low, ge, lowTest, BothOn(ge, lowTest), t, f);
    forall d: Data ensures NumberTestOn(cond, l, r)(d) == (gt(d) || BothOn(ge, lowTest)(d)) {
      NumberTestByWord(cond, l, r, d);
    }
    OrDecides(buf, top, mid, gt, BothOn(ge, lowTest), NumberTestOn(cond, l, r), t, f);
  }

  /** The tests on words make up the compiled meaning of a comparison. */
  lemma CompareDecides(buf: seq<Instr>, loc: int, e: BoolExpr, t: int, f: int, yes: int, no: int)
    requires e.Compare? && LocOk(buf, loc) && LocOk(buf, t) && LocOk(buf, f)
    requires (yes, no) == if Exchanged(e.op) then (f, t) else (t, f)
    requires Decides(buf, loc, NumberOn(CondOf(e.op), e.lhs, e.rhs), yes, no)
    ensures Decides(buf, loc, HoldsOn(e), t, f)
  {
    SameDecides(buf, loc, NumberOn(CondOf(e.op), e.lhs, e.rhs), HoldsOn(e), Exchanged(e.op), t, f);
  }
}
