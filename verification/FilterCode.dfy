/** What a whole filter must return, and the architecture check in front of a dispatch. */
module FilterCode {
  import opened Words
  import opened Actions
  import opened Bpf
  import opened Rules
  import opened CodeMeaning
  import opened LoadCode
  import opened Branching
  import opened Outlines
  import opened MappingCode
  import opened Dispatch
  import opened Collapse

  /** What the filter must return: KILL on any other architecture, and what the rules decide on
      this one. */
  function Verdict(rules: seq<Rule>, auditArch: u32, d: Data): Outcome {
    if d.arch == auditArch then CodeOf(FirstMatch(rules, d)) else CodeOf(Some(ACTION_KILL))
  }

  /** The rules decide every system call alike. */
  ghost predicate Uniform(rules: seq<Rule>, action: int) {
    forall d :: FirstMatch(rules, d) == Some(action)
  }

  /** Some system call gets this action. */
  ghost predicate Occurs(rules: seq<Rule>, action: int) {
    exists d :: FirstMatch(rules, d) == Some(action)
  }

  /** The location decides every system call as the rules do. */
  ghost predicate DecidesAll(buf: seq<Instr>, loc: int, rules: seq<Rule>)
    requires LocOk(buf, loc)
  {
    forall d :: Yields(buf, loc, d, CodeOf(FirstMatch(rules, d)))
  }

  /** Code that starts at the architecture check, or returns at once. Anything else on top is
      code that nothing was meant to reach. */
  predicate StartsRight(code: seq<Instr>) {
    code != [] && (code[|code| - 1] == LdAbs(OFFSET_ARCH) || code[|code| - 1].Ret?)
  }

  /** Loading the number makes the dispatch independent of the registers. */
  lemma LoadNrDispatches(buf: seq<Instr>, loc: int, rules: seq<Rule>)
    requires 0 <= loc == |buf| - 1 && LocOk(buf, loc) && SlotMeans(buf, loc, 0, TWO_32, rules)
    ensures var more := buf + [LdAbs(OFFSET_NR)];
            DecidesAll(more, |buf|, rules)
  {
    var more := buf + [LdAbs(OFFSET_NR)];
    forall d: Data, r: Regs ensures OutcomeAt(more, |buf|, r, d) == CodeOf(FirstMatch(rules, d)) {
      FallsInto(AsMeant, buf, LdAbs(OFFSET_NR), r, d);
      assert YieldsAtNr(buf, loc, d, CodeOf(FirstMatch(rules, d)));
    }
  }

  /** The architecture check in front of the policy's code. */
  lemma {:induction false} ArchCheckDecides(buf: seq<Instr>, loc: int, policy: int, rules: seq<Rule>, auditArch: u32,
                                            r: Regs, d: Data)
    requires 0 <= loc == |buf| - 1 && LocOk(buf, loc) && LocOk(buf, policy)
    requires BranchesTo(AsMeant, buf, loc, Jeq, Imm(auditArch), policy, -ACTION_KILL)
    requires Yields(buf, policy, d, CodeOf(FirstMatch(rules, d)))
    ensures var code := buf + [LdAbs(OFFSET_ARCH)];
            RunAll(AsMeant, code, r, d) == Verdict(rules, auditArch, d)
  {
    FallsInto(AsMeant, buf, LdAbs(OFFSET_ARCH), r, d);
    var r' := Exec(LdAbs(OFFSET_ARCH), r, d).value;
    assert OutcomeAt(buf, loc, r', d)
        == OutcomeAt(buf, Pick(Test(Jeq, r'.a, auditArch), policy, -ACTION_KILL), r', d);
  }

  /** An action decides every system call as the rules do exactly if all rules agree on it. */
  lemma ActionDecides(buf: seq<Instr>, action: int, rules: seq<Rule>)
    requires ValidAction(action)
    ensures DecidesAll(buf, -action, rules) <==> Uniform(rules, action)
  {
    if DecidesAll(buf, -action, rules) {
      forall d: Data ensures FirstMatch(rules, d) == Some(action) {
        assert Yields(buf, -action, d, CodeOf(FirstMatch(rules, d)));
        assert OutcomeAt(buf, -action, Regs(0, 0, map[]), d) == CodeOf(FirstMatch(rules, d));
        ActionToBpfInjective(action, FirstMatch(rules, d).value);
      }
    }
    if Uniform(rules, action) {
      forall d: Data ensures Yields(buf, -action, d, CodeOf(FirstMatch(rules, d))) {
        ActionYields(buf, action, d);
      }
    }
  }

  /** The generator settles all rules on one action, and so every call gets it. */
  lemma AllSettledUniform(rules: seq<Rule>, c: int)
    requires Partition(rules) && AllSettled(rules, 0, c)
    ensures Uniform(rules, c)
  {
    forall d: Data ensures FirstMatch(rules, d) == Some(c) {
      var k := CoveringRule(rules, d.nr);
      PartitionDecides(rules, k, d);
      assert Total(rules[k]);
      SettledSound(rules[k].Says(), d);
    }
  }

  /** A dispatch replaced by the default action is right if some system call gets that. */
  lemma CollapsedDecides(buf: seq<Instr>, policy: int, rules: seq<Rule>, default: int)
    requires Partition(rules) && LocOk(buf, policy) && ValidAction(default) && Occurs(rules, default)
    requires policy >= 0 ==> DecidesAll(buf, policy, rules)
    requires policy < 0 ==> policy == -default && exists c :: 0 < c && AllSettled(rules, 0, c)
    ensures DecidesAll(buf, policy, rules)
  {
    if policy < 0 {
      var c :| 0 < c && AllSettled(rules, 0, c);
      AllSettledUniform(rules, c);
      var d0 :| FirstMatch(rules, d0) == Some(default);
      assert FirstMatch(rules, d0) == Some(c);
      ActionDecides(buf, default, rules);
    }
  }

  lemma DecidesAllExtends(buf: seq<Instr>, more: seq<Instr>, loc: int, rules: seq<Rule>)
    requires LocOk(buf, loc) && buf <= more && DecidesAll(buf, loc, rules)
    ensures DecidesAll(more, loc, rules)
  {
    forall d: Data ensures Yields(more, loc, d, CodeOf(FirstMatch(rules, d))) {
      YieldsExtends(buf, more, loc, d, CodeOf(FirstMatch(rules, d)));
    }
  }

  /** The whole filter, with the architecture loaded on top. */
  lemma FilterDecides(body: seq<Instr>, loc: int, policy: int, rules: seq<Rule>, auditArch: u32)
    requires 0 <= loc == |body| - 1 && LocOk(body, loc) && LocOk(body, policy) && DecidesAll(body, policy, rules)
    requires BranchesTo(AsMeant, body, loc, Jeq, Imm(auditArch), policy, -ACTION_KILL)
    ensures Renders(body + [LdAbs(OFFSET_ARCH)], rules, auditArch)
  {
    var code := body + [LdAbs(OFFSET_ARCH)];
    forall r: Regs, d: Data ensures RunAll(AsMeant, code, r, d) == Verdict(rules, auditArch, d) {
      ArchCheckDecides(body, loc, policy, rules, auditArch, r, d);
    }
  }

  /** From any registers and scratch words, the code returns the verdict. */
  ghost predicate Renders(code: seq<Instr>, rules: seq<Rule>, auditArch: u32) {
    forall r: Regs, d: Data :: RunAll(AsMeant, code, r, d) == Verdict(rules, auditArch, d)
  }

  /** A filter that kills everything is a single return. */
  lemma KillDecides(code: seq<Instr>, rules: seq<Rule>, auditArch: u32)
    requires code != [] && code[|code| - 1] == KILL_RETURN && DecidesAll(code, -ACTION_KILL, rules)
    ensures Renders(code, rules, auditArch)
  {
    forall r: Regs, d: Data ensures RunAll(AsMeant, code, r, d) == Verdict(rules, auditArch, d) {
      assert Yields(code, -ACTION_KILL, d, CodeOf(FirstMatch(rules, d)));
      assert OutcomeAt(code, -ACTION_KILL, r, d) == CodeOf(FirstMatch(rules, d));
    }
  }

  // ----- the code always returns -----

  /** From any registers and scratch words, the code returns. */
  ghost predicate Answers(code: seq<Instr>) {
    forall r: Regs, d: Data :: RunAll(AsMeant, code, r, d).Returned?
  }

  ghost predicate AnswersAt(buf: seq<Instr>, loc: int)
    requires LocOk(buf, loc)
  {
    forall r: Regs, d: Data :: OutcomeAt(buf, loc, r, d).Returned?
  }

  /** A partition has an action for every call. */
  lemma {:induction false} RulesAnswer(rules: seq<Rule>, d: Data)
    requires Partition(rules)
    ensures CodeOf(FirstMatch(rules, d)).Returned?
  {
    var k := CoveringRule(rules, d.nr);
    PartitionDecides(rules, k, d);
    assert Total(rules[k]);
    if rules[k].IsConditional() { MappingsAnswer(rules[k].exprs, d); }
  }

  lemma {:induction false} MappingsAnswer(ms: seq<Mapping>, d: Data)
    requires forall i :: 0 <= i < |ms| ==> ValidAction(ms[i].action)
    ensures FirstMapping(ms, d).Some? ==> CodeOf(FirstMapping(ms, d)).Returned?
  {
    if ms != [] { MappingsAnswer(ms[1..], d); }
  }

  lemma PolicyAnswers(buf: seq<Instr>, policy: int, rules: seq<Rule>, default: int)
    requires Partition(rules) && LocOk(buf, policy)
    requires policy >= 0 ==> DecidesAll(buf, policy, rules)
    ensures AnswersAt(buf, policy)
  {
    if policy >= 0 {
      forall r: Regs, d: Data ensures OutcomeAt(buf, policy, r, d).Returned? {
        RulesAnswer(rules, d);
        assert Yields(buf, policy, d, CodeOf(FirstMatch(rules, d)));
      }
    }
  }

  /** Both sides of the architecture check return. */
  lemma FilterAnswers(b: seq<Instr>, body: seq<Instr>, loc: int, policy: int, auditArch: u32)
    requires LocOk(b, policy) && b <= body && 0 <= loc == |body| - 1 && LocOk(body, loc) && AnswersAt(b, policy)
    requires BranchesTo(AsMeant, body, loc, Jeq, Imm(auditArch), policy, -ACTION_KILL)
    ensures Answers(body + [LdAbs(OFFSET_ARCH)])
  {
    var code := body + [LdAbs(OFFSET_ARCH)];
    forall r: Regs, d: Data ensures RunAll(AsMeant, code, r, d).Returned? {
      FallsInto(AsMeant, body, LdAbs(OFFSET_ARCH), r, d);
      var r' := Exec(LdAbs(OFFSET_ARCH), r, d).value;
      OutcomeExtends(AsMeant, b, body, policy, r', d);
      assert OutcomeAt(b, policy, r', d).Returned?;
      assert OutcomeAt(body, loc, r', d).Returned?;
    }
  }

  /** Whatever offsets have been lost, calls on any other architecture are killed. */
  ghost predicate KillsElsewhere(code: seq<Instr>, auditArch: u32) {
    forall r: Regs, d: Data :: d.arch != auditArch ==> RunAll(AsIs, code, r, d) == Returned(SECCOMP_RET_KILL)
  }

  lemma FilterKills(body: seq<Instr>, loc: int, policy: int, auditArch: u32)
    requires LocOk(body, policy) && 0 <= loc == |body| - 1 && LocOk(body, loc)
    requires BranchesTo(AsIs, body, loc, Jeq, Imm(auditArch), policy, -ACTION_KILL)
    ensures KillsElsewhere(body + [LdAbs(OFFSET_ARCH)], auditArch)
  {
    var code := body + [LdAbs(OFFSET_ARCH)];
    forall r: Regs, d: Data | d.arch != auditArch
      ensures RunAll(AsIs, code, r, d) == Returned(SECCOMP_RET_KILL)
    {
      FallsInto(AsIs, body, LdAbs(OFFSET_ARCH), r, d);
      var r' := Exec(LdAbs(OFFSET_ARCH), r, d).value;
      assert OutcomeAs(AsIs, body, loc, r', d)
          == OutcomeAs(AsIs, body, Pick(Test(Jeq, r'.a, auditArch), policy, -ACTION_KILL), r', d);
    }
  }

  // ----- policies that kill everything -----

  /** The default action is KILL, the generator settles all rules on one action, and yet code that
      returns KILL has been emitted for some condition. */
  ghost predicate KillsLeaving(rules: seq<Rule>, default: int) {
    default == ACTION_KILL && (exists c :: 0 < c && AllSettled(rules, 0, c)) && LeftKill(rules, 0)
  }

  /** The code starts at what the conditions have left. */
  ghost predicate StartsAtLeftover(code: seq<Instr>, rules: seq<Rule>, default: int) {
    && KillsLeaving(rules, default) && code != [] && LocOk(code, |code| - 1) && LeftCode(rules, 0)
    && LeftYields(code, rules, 0)
  }

  /** What looking for a return of KILL does to the code: one is added if there is none, and none if
      there is one within reach. */
  predicate KilledAtOnce(b: seq<Instr>, code: seq<Instr>) {
    && code != []
    && (code == b || code == b + [KILL_RETURN])
    && (StartsRight(code) <==> code == b + [KILL_RETURN])
    && (!HoldsKill(b) ==> StartsRight(code))
    && (HoldsKill(b) && |b| <= MAX_JUMP + 1 ==> !StartsRight(code))
  }

  lemma {:induction false} TopAnswers(ms: seq<Mapping>, d: Data)
    requires LeavesCode(ms) && HasCatchAll(ms) && forall i :: 0 <= i < |ms| ==> ValidAction(ms[i].action)
    ensures CodeOf(TopAction(ms, d)).Returned?
  {
    var rest := ms[1..];
    assert rest[|rest| - 1] == ms[|ms| - 1];
    if Emits(ms) {
      TotalDecides(rest, d);
      MappingsAnswer(rest, d);
    } else {
      TopAnswers(rest, d);
    }
  }

  /** What the conditions have left returns some action, too. */
  lemma {:induction false} LeftTopAnswers(rules: seq<Rule>, i: nat, d: Data)
    requires Partition(rules) && LeftCode(rules, i)
    ensures CodeOf(LeftTop(rules, i, d)).Returned?
    decreases |rules| - i
  {
    assert Total(rules[i]);
    if Leaves(rules[i].Says()) { TopAnswers(rules[i].exprs, d); } else { LeftTopAnswers(rules, i + 1, d); }
  }

  lemma {:induction false} LeftoverAnswers(code: seq<Instr>, rules: seq<Rule>)
    requires Partition(rules) && LeftCode(rules, 0) && code != [] && LocOk(code, |code| - 1)
    requires LeftYields(code, rules, 0)
    ensures Answers(code)
  {
    forall r: Regs, d: Data ensures RunAll(AsMeant, code, r, d).Returned? {
      LeftTopAnswers(rules, 0, d);
      assert Yields(code, |code| - 1, d, CodeOf(LeftTop(rules, 0, d)));
      assert OutcomeAt(code, |code| - 1, r, d) == CodeOf(LeftTop(rules, 0, d));
    }
  }

  lemma {:induction false} KilledRenders(b: seq<Instr>, code: seq<Instr>, rules: seq<Rule>, default: int,
                                         auditArch: u32)
    requires Partition(rules) && default == ACTION_KILL && KilledAtOnce(b, code) && Left([], b, rules, 0)
    requires exists c :: 0 < c && AllSettled(rules, 0, c)
    requires |b| <= RulesCost(rules, Length)
    ensures Answers(code) && StaysSighted(b, code)
    ensures StartsRight(code) ==> KillsElsewhere(code, auditArch)
    ensures StartsRight(code) && Occurs(rules, default) ==> Renders(code, rules, auditArch)
    ensures !StartsRight(code) ==> StartsAtLeftover(code, rules, default)
    ensures KillsLeaving(rules, default) && RulesCost(rules, Length) <= MAX_JUMP + 1 ==> !StartsRight(code)
  {
    if StartsRight(code) {
      if Occurs(rules, default) {
        CollapsedDecides(code, -ACTION_KILL, rules, default);
        KillDecides(code, rules, auditArch);
      }
    } else {
      LeftoverAnswers(code, rules);
    }
  }
}
