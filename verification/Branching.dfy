/** Jump targets within reach, and the branch emitted on top of them. */
module Branching {
  import opened Words
  import opened Actions
  import opened Bpf
  import opened CodeMeaning
  import opened ReturnCache

  /** What a branch compares the accumulator with. */
  datatype Operand = Imm(k: u32) | IndexReg
  {
    function In(r: Regs): u32 {
      if Imm? then k else r.x
    }
  }

  /** The instruction at pos continues at loc: it is loc, jumps to loc, or returns its action. */
  predicate ContinuesAt(buf: seq<Instr>, pos: int, loc: int) {
    || (loc < 0 && ReturnsAt(buf, pos, -loc))
    || (0 <= loc <= pos < |buf| && (pos == loc || (loc < pos && buf[pos] == Ja(pos - 1 - loc))))
  }

  lemma {:induction false} ContinuesAtMeans(how: Reading, buf: seq<Instr>, pos: int, loc: int, r: Regs, d: Data)
    requires ContinuesAt(buf, pos, loc)
    ensures Run(how, buf, pos, r, d) == OutcomeAs(how, buf, loc, r, d)
  {
  }

  /** Resolving loc turned buf0 into buf1 and found pos. */
  predicate Resolves(buf0: seq<Instr>, buf1: seq<Instr>, loc: int, pos: int) {
    && 0 <= pos < |buf1| && |buf1| - 1 - pos <= MAX_JUMP
    && (|| (loc < 0 && ReturnsAt(buf1, pos, -loc)
            && (buf1 == buf0 || (buf1 == buf0 + [Ret(ActionToBpf(-loc))] && pos == |buf0|)))
        || (0 <= loc < |buf0| && |buf0| - 1 - loc <= MAX_JUMP && buf1 == buf0 && pos == loc)
        || (0 <= loc && |buf0| - 1 - loc > MAX_JUMP && buf1 == buf0 + [Ja(|buf0| - 1 - loc)] && pos == |buf0|))
  }

  lemma ResolvesKill(buf0: seq<Instr>, buf1: seq<Instr>, loc: int, pos: int)
    requires Resolves(buf0, buf1, loc, pos)
    ensures HoldsKill(buf1) <==> HoldsKill(buf0) || loc == -ACTION_KILL
  {
    if loc < 0 { OtherReturn(-loc); }
    if loc == -ACTION_KILL { assert buf1[pos] == KILL_RETURN; }
  }

  /** Two jumps to the same far target have been emitted last. */
  predicate FarJumps(buf: seq<Instr>) {
    && |buf| >= FIRST_BLIND && buf[|buf| - 1].Ja? && buf[|buf| - 2].Ja?
    && buf[|buf| - 1].skip == buf[|buf| - 2].skip + 1 > MAX_JUMP + 1
  }

  /** Resolving t, then f, then t again leaves both positions in reach, except in one case. */
  lemma TargetsPlaced(b0: seq<Instr>, b1: seq<Instr>, b2: seq<Instr>, b3: seq<Instr>,
                      t: int, f: int, p1: int, p2: int, p3: int, lost: bool)
    requires LocOk(b0, t) && LocOk(b0, f) && t != f
    requires Resolves(b0, b1, t, p1) && Resolves(b1, b2, f, p2) && Resolves(b2, b3, t, p3)
    requires t < 0 && b2 == b1 ==> b3 == b2
    requires lost <==> && t >= 0 && |b0| - 1 - t > MAX_JUMP
                       && b2 == b1 && p2 == |b0| - MAX_JUMP
    ensures b0 <= b3 && p3 != p2
    ensures |b3| - 1 - p2 <= MAX_JUMP + 1
    ensures lost <==> |b3| - 1 - p2 == MAX_JUMP + 1
    ensures lost ==> p3 == |b3| - 1 && FarJumps(b3)
    ensures ContinuesAt(b3, p3, t) && ContinuesAt(b3, p2, f)
    ensures StaysSighted(b0, b3)
    ensures HoldsKill(b3) <==> HoldsKill(b0) || ToKill(t, f)
  {
    assert b0 <= b1 <= b2 <= b3;
    ResolvedStays(b0, b1, b2, b3, t, f, p1, p2, p3);
    ResolvedContinues(b0, b1, b2, b3, t, f, p2, p3);
    if t < 0 && f < 0 && p3 == p2 {
      ActionToBpfInjective(-t, -f);
    }
  }

  lemma ResolvedContinues(b0: seq<Instr>, b1: seq<Instr>, b2: seq<Instr>, b3: seq<Instr>, t: int, f: int,
                          p2: int, p3: int)
    requires b0 <= b1 && LocOk(b0, t) && LocOk(b0, f) && Resolves(b1, b2, f, p2) && Resolves(b2, b3, t, p3)
    ensures ContinuesAt(b3, p3, t) && ContinuesAt(b3, p2, f)
  {
    assert b1 <= b2 <= b3;
  }

  /** What resolving adds are returns and jumps. */
  lemma ResolvedStays(b0: seq<Instr>, b1: seq<Instr>, b2: seq<Instr>, b3: seq<Instr>,
                      t: int, f: int, p1: int, p2: int, p3: int)
    requires Resolves(b0, b1, t, p1) && Resolves(b1, b2, f, p2) && Resolves(b2, b3, t, p3)
    ensures StaysSighted(b0, b3)
    ensures HoldsKill(b3) <==> HoldsKill(b0) || ToKill(t, f)
  {
    ResolvesKill(b0, b1, t, p1);
    ResolvesKill(b1, b2, f, p2);
    ResolvesKill(b2, b3, t, p3);
    StaysSightedOn(b0, b1, b2);
    StaysSightedOn(b0, b2, b3);
  }

  /** The branch instruction with these offsets. */
  function BranchInstr(cond: Cond, operand: Operand, jt: u8, jf: u8): (i: Instr)
    ensures i.IsBranch() && i.jt == jt && i.jf == jf
    ensures forall r :: Skip(i, r) == if Test(cond, r.a, operand.In(r)) then jt else jf
  {
    if operand.Imm? then JmpK(cond, operand.k, jt, jf) else JmpX(cond, jt, jf)
  }

  /** From loc, code continues at t when the comparison of A with the operand holds and at f
      otherwise. */
  ghost predicate BranchesTo(how: Reading, buf: seq<Instr>, loc: int, cond: Cond, operand: Operand, t: int, f: int)
    requires LocOk(buf, t) && LocOk(buf, f) && (loc < 0 ==> ValidAction(-loc))
  {
    forall r: Regs, d: Data ::
      OutcomeAs(how, buf, loc, r, d) == OutcomeAs(how, buf, Pick(Test(cond, r.a, operand.In(r)), t, f), r, d)
  }

  /** On some input that fails the test, the targets behave differently. */
  ghost predicate Distinguished(buf: seq<Instr>, cond: Cond, operand: Operand, t: int, f: int)
    requires LocOk(buf, t) && LocOk(buf, f)
  {
    exists r: Regs, d: Data ::
      !Test(cond, r.a, operand.In(r)) && OutcomeAs(AsIs, buf, t, r, d) != OutcomeAs(AsIs, buf, f, r, d)
  }

  /** A branch that always continues at t is not one to t and f, if those can be told apart. */
  lemma LostIsWrong(buf: seq<Instr>, more: seq<Instr>, loc: int, cond: Cond, operand: Operand, t: int, f: int)
    requires LocOk(buf, t) && LocOk(buf, f) && buf <= more && LocOk(more, loc)
    requires BranchesTo(AsIs, more, loc, cond, operand, t, t)
    ensures Distinguished(buf, cond, operand, t, f) ==> !BranchesTo(AsIs, more, loc, cond, operand, t, f)
  {
    if Distinguished(buf, cond, operand, t, f) {
      var r: Regs, d: Data :|
        !Test(cond, r.a, operand.In(r)) && OutcomeAs(AsIs, buf, t, r, d) != OutcomeAs(AsIs, buf, f, r, d);
      OutcomeExtends(AsIs, buf, more, t, r, d);
      OutcomeExtends(AsIs, buf, more, f, r, d);
      assert OutcomeAs(AsIs, more, loc, r, d)
          == OutcomeAs(AsIs, more, Pick(Test(cond, r.a, operand.In(r)), t, t), r, d);
    }
  }

  /** How far the second offset of a branch was meant to skip. */
  function SecondSkip(how: Reading, instr: Instr): nat
    requires instr.IsBranch()
  {
    instr.jf + if how.AsMeant? && instr.IsBlind() then 256 else 0
  }

  /** The branch at loc, with offsets that were meant to reach both targets. */
  predicate BranchAt(buf: seq<Instr>, loc: int, cond: Cond, operand: Operand, t: int, f: int) {
    && 0 <= loc < |buf| && buf[loc].IsBranch()
    && buf[loc] == BranchInstr(cond, operand, buf[loc].jt, buf[loc].jf)
    && ContinuesAt(buf, loc - 1 - buf[loc].jt, t) && ContinuesAt(buf, loc - 1 - SecondSkip(AsMeant, buf[loc]), f)
  }

  lemma SameTargets(how: Reading, buf: seq<Instr>, cond: Cond, operand: Operand, t: int)
    requires LocOk(buf, t)
    ensures BranchesTo(how, buf, t, cond, operand, t, t)
  {
  }

  /** Cutting distinct offsets to eight bits makes them equal in one case only. */
  lemma OffsetsCut(jt: int, jf: int)
    requires 0 <= jt <= MAX_JUMP && 0 <= jf <= MAX_JUMP + 1 && jt != jf
    requires jf == MAX_JUMP + 1 ==> jt == 0
    ensures jt % 256 == jt && (jf % 256 == jt <==> jf == MAX_JUMP + 1)
    ensures jf <= MAX_JUMP ==> jf % 256 == jf
    ensures jf == MAX_JUMP + 1 ==> jf % 256 == 0
  {
  }

  /** A branch emitted on top of b, with offsets that reach tpos and fpos. */
  lemma BranchMeans(how: Reading, b: seq<Instr>, cond: Cond, operand: Operand, jt: u8, jf: u8, tpos: int, fpos: int,
                    t: int, f: int, r: Regs, d: Data)
    requires ContinuesAt(b, tpos, t) && ContinuesAt(b, fpos, f) && LocOk(b, t) && LocOk(b, f)
    requires jt == |b| - 1 - tpos && SecondSkip(how, BranchInstr(cond, operand, jt, jf)) == |b| - 1 - fpos
    ensures var more := b + [BranchInstr(cond, operand, jt, jf)];
            OutcomeAs(how, more, |b|, r, d) == OutcomeAs(how, more, Pick(Test(cond, r.a, operand.In(r)), t, f), r, d)
  {
    var inst := BranchInstr(cond, operand, jt, jf);
    var more := b + [inst];
    assert Run(how, more, |b|, r, d) == Run(how, more, |b| - 1 - SkipAs(how, inst, r), r, d);
    assert ContinuesAt(more, tpos, t) && ContinuesAt(more, fpos, f);
    ContinuesAtMeans(how, more, tpos, t, r, d);
    ContinuesAtMeans(how, more, fpos, f, r, d);
  }

  lemma BranchBuilt(how: Reading, b: seq<Instr>, cond: Cond, operand: Operand, jt: u8, jf: u8, tpos: int, fpos: int,
                    t: int, f: int)
    requires ContinuesAt(b, tpos, t) && ContinuesAt(b, fpos, f) && LocOk(b, t) && LocOk(b, f)
    requires jt == |b| - 1 - tpos && SecondSkip(how, BranchInstr(cond, operand, jt, jf)) == |b| - 1 - fpos
    ensures BranchesTo(how, b + [BranchInstr(cond, operand, jt, jf)], |b|, cond, operand, t, f)
    ensures how.AsMeant? ==> BranchAt(b + [BranchInstr(cond, operand, jt, jf)], |b|, cond, operand, t, f)
  {
    var more := b + [BranchInstr(cond, operand, jt, jf)];
    forall r: Regs, d: Data
      ensures OutcomeAs(how, more, |b|, r, d)
           == OutcomeAs(how, more, Pick(Test(cond, r.a, operand.In(r)), t, f), r, d)
    {
      BranchMeans(how, b, cond, operand, jt, jf, tpos, fpos, t, f, r, d);
    }
  }
}
