/** The code of a rule: what it implements, and what the generator leaves behind once constants have
    settled where the code starts. */
module MappingCode {
  import opened Actions
  import opened Bpf
  import opened Expression
  import opened CodeSize
  import opened Outlines
  import opened Rules
  import opened CodeMeaning
  import opened CompareCode
  import opened ConditionCode

  function CodeOf(action: Option<int>): Outcome {
    if action.Some? && ValidAction(action.value) then Returned(ActionToBpf(action.value)) else Stuck
  }

  /** The location decides as the rule does. */
  ghost predicate Implements(buf: seq<Instr>, loc: int, rule: Rule)
    requires LocOk(buf, loc)
  {
    forall d :: Yields(buf, loc, d, CodeOf(RuleAction(rule, d)))
  }

  ghost predicate MappingsImplemented(buf: seq<Instr>, loc: int, ms: seq<Mapping>)
    requires LocOk(buf, loc)
  {
    forall d :: Yields(buf, loc, d, CodeOf(FirstMapping(ms, d)))
  }

  lemma ImplementsExtends(buf: seq<Instr>, more: seq<Instr>, loc: int, rule: Rule)
    requires LocOk(buf, loc) && buf <= more && Implements(buf, loc, rule)
    ensures Implements(more, loc, rule)
  {
    forall d: Data ensures Yields(more, loc, d, CodeOf(RuleAction(rule, d))) {
      YieldsExtends(buf, more, loc, d, CodeOf(RuleAction(rule, d)));
    }
  }

  lemma ActionYields(buf: seq<Instr>, action: int, d: Data)
    requires ValidAction(action)
    ensures Yields(buf, -action, d, CodeOf(Some(action)))
  {
  }

  /** A condition in front of mappings that are implemented already. */
  lemma MappingsStep(buf: seq<Instr>, more: seq<Instr>, loc: int, next: int, ms: seq<Mapping>)
    requires ms != [] && ms[0].cond.Some? && ValidAction(ms[0].action)
    requires LocOk(buf, next) && buf <= more && LocOk(more, loc)
    requires MappingsImplemented(buf, next, ms[1..])
    requires Decides(more, loc, HoldsOn(ms[0].cond.value), -ms[0].action, next)
    ensures MappingsImplemented(more, loc, ms)
  {
    forall d: Data ensures Yields(more, loc, d, CodeOf(FirstMapping(ms, d))) {
      var res := CodeOf(FirstMapping(ms, d));
      ActionYields(more, ms[0].action, d);
      YieldsExtends(buf, more, next, d, CodeOf(FirstMapping(ms[1..], d)));
      assert Yields(more, Pick(HoldsOn(ms[0].cond.value)(d), -ms[0].action, next), d, res);
    }
  }

  // ----- what constants settle -----

  /** The action of every call, as far as the generator can tell. */
  function SettledAction(ms: seq<Mapping>): Option<int> {
    if |ms| <= 1 then (if ms == [] then None else Some(ms[0].action))
    else
      var rest := SettledAction(ms[1..]);
      if ms[0].cond.None? || rest == Some(ms[0].action) then Some(ms[0].action)
      else
        var verdict := OutlineOf(ms[0].cond.value).verdict;
        if verdict.None? then None else if verdict.value then Some(ms[0].action) else rest
  }

  /** The first condition is compiled to some code. */
  predicate Emits(ms: seq<Mapping>) {
    && |ms| > 1 && ms[0].cond.Some?
    && SettledAction(ms[1..]) != Some(ms[0].action) && OutlineOf(ms[0].cond.value).emits
  }

  predicate LeavesCode(ms: seq<Mapping>) {
    |ms| > 1 && (Emits(ms) || LeavesCode(ms[1..]))
  }

  /** Some of the code returns KILL. */
  predicate LeavesKill(ms: seq<Mapping>) {
    |ms| > 1 && (|| (Emits(ms) && (ms[0].action == ACTION_KILL || SettledAction(ms[1..]) == Some(ACTION_KILL)))
                 || LeavesKill(ms[1..]))
  }

  /** What the instruction emitted last leads to. */
  function TopAction(ms: seq<Mapping>, d: Data): Option<int> {
    if |ms| <= 1 then None
    else if Emits(ms) then (if TopHolds(ms[0].cond.value, d) then Some(ms[0].action) else FirstMapping(ms[1..], d))
    else TopAction(ms[1..], d)
  }

  // ----- the code of the mappings of a rule -----

  ghost predicate TopYields(b: seq<Instr>, ms: seq<Mapping>)
    requires LocOk(b, |b| - 1)
  {
    forall d: Data :: Yields(b, |b| - 1, d, CodeOf(TopAction(ms, d)))
  }

  /** The code starts where constants settle it, and is as long as the mappings make it. */
  predicate MappingsLand(b0: seq<Instr>, b: seq<Instr>, ms: seq<Mapping>, loc: int) {
    && b0 <= b && |b| <= |b0| + MappingsCost(ms, Length)
    && (SettledAction(ms).Some? ==> loc == -SettledAction(ms).value < 0)
    && (SettledAction(ms).None? ==> |b0| <= loc < |b|)
    && (LeavesCode(ms) <==> |b0| < |b|)
    && (HoldsKill(b) <==> HoldsKill(b0) || LeavesKill(ms))
    && (MappingsCost(ms, Loose) == 0 ==> if loc < 0 then b == b0 else loc == |b| - 1)
  }

  /** No offset is lost if no comparison is settled by constants, or little code is emitted. */
  predicate MappingsKeepSight(b0: seq<Instr>, b: seq<Instr>, ms: seq<Mapping>) {
    MappingsCost(ms, Loose) == 0 || MappingsCost(ms, Length) <= NEAR ==> StaysSighted(b0, b)
  }

  ghost predicate MappingsBuilt(b0: seq<Instr>, b: seq<Instr>, ms: seq<Mapping>, loc: int) {
    && MappingsLand(b0, b, ms, loc) && LocOk(b, loc)
    && MappingsImplemented(b, loc, ms)
    && (|b0| < |b| ==> LocOk(b, |b| - 1) && TopYields(b, ms))
    && MappingsKeepSight(b0, b, ms)
  }

  /** The last mapping needs no code. */
  lemma LastMappingBuilt(b: seq<Instr>, ms: seq<Mapping>)
    requires |ms| == 1 && HasCatchAll(ms) && ValidAction(ms[0].action)
    ensures MappingsBuilt(b, b, ms, -ms[0].action)
  {
    assert ms[1..] == [];
    forall d: Data ensures Yields(b, -ms[0].action, d, CodeOf(FirstMapping(ms, d))) {
      ActionYields(b, ms[0].action, d);
    }
  }

  /** The code of the mappings from k on, and the bound on scratch words they meet. */
  ghost predicate BuiltFrom(b0: seq<Instr>, b: seq<Instr>, ms: seq<Mapping>, k: nat, loc: int, was: nat, now: nat)
    requires k <= |ms|
  {
    && MappingsBuilt(b0, b, ms[k..], loc)
    && (MappingsCost(ms[k..], Scratch) == 0 && was < BPF_MEMWORDS ==> now < BPF_MEMWORDS)
  }

  lemma BuiltFromStart(b0: seq<Instr>, b: seq<Instr>, ms: seq<Mapping>, loc: int, was: nat, now: nat)
    requires BuiltFrom(b0, b, ms, 0, loc, was, now)
    ensures MappingsBuilt(b0, b, ms, loc)
    ensures MappingsCost(ms, Scratch) == 0 && was < BPF_MEMWORDS ==> now < BPF_MEMWORDS
  {
    assert ms[0..] == ms;
  }

  lemma BuiltFromLast(b: seq<Instr>, ms: seq<Mapping>, slots: nat)
    requires HasCatchAll(ms) && ValidAction(ms[|ms| - 1].action)
    ensures BuiltFrom(b, b, ms, |ms| - 1, -ms[|ms| - 1].action, slots, slots)
  {
    var last := ms[|ms| - 1..];
    assert last == [ms[|ms| - 1]] && last[1..] == [];
    LastMappingBuilt(b, last);
  }

  /** A condition in front of mappings that have been compiled already. */
  lemma MappingBuilt(b0: seq<Instr>, b1: seq<Instr>, b2: seq<Instr>, ms: seq<Mapping>, rest: int, loc: int)
    requires |ms| > 1 && ms[0].cond.Some? && ValidAction(ms[0].action) && NoTruthNode(ms[0].cond.value)
    requires MappingsBuilt(b0, b1, ms[1..], rest)
    requires ConditionBuilt(b1, b2, ms[0].cond.value, -ms[0].action, rest, loc)
    ensures MappingsBuilt(b0, b2, ms, loc)
  {
    MappingsStep(b1, b2, loc, rest, ms);
    MappingLands(b0, b1, b2, ms, rest, loc);
    MappingTop(b0, b1, b2, ms, rest, loc);
    MappingSight(b0, b1, b2, ms, rest, loc);
  }

  /** The same for mapping k in a list. */
  lemma MappingAtBuilt(b0: seq<Instr>, b1: seq<Instr>, b2: seq<Instr>, ms: seq<Mapping>, k: nat, rest: int, loc: int)
    requires k + 1 < |ms| && ms[k].cond.Some? && ValidAction(ms[k].action) && NoTruthNode(ms[k].cond.value)
    requires MappingsBuilt(b0, b1, ms[k + 1..], rest)
    requires ConditionBuilt(b1, b2, ms[k].cond.value, -ms[k].action, rest, loc)
    ensures MappingsBuilt(b0, b2, ms[k..], loc)
  {
    assert ms[k..][1..] == ms[k + 1..];
    MappingBuilt(b0, b1, b2, ms[k..], rest, loc);
  }

  /** The targets of a condition are equal exactly if the later mappings are settled on its action. */
  lemma ConditionEmits(b0: seq<Instr>, b1: seq<Instr>, b2: seq<Instr>, ms: seq<Mapping>, rest: int, loc: int)
    requires |ms| > 1 && ms[0].cond.Some? && ValidAction(ms[0].action)
    requires MappingsLand(b0, b1, ms[1..], rest)
    requires Lands(b1, b2, OutlineOf(ms[0].cond.value), -ms[0].action, rest, loc)
    ensures -ms[0].action == rest <==> SettledAction(ms[1..]) == Some(ms[0].action)
    ensures |b1| < |b2| <==> Emits(ms)
  {
  }

  lemma MappingLands(b0: seq<Instr>, b1: seq<Instr>, b2: seq<Instr>, ms: seq<Mapping>, rest: int, loc: int)
    requires |ms| > 1 && ms[0].cond.Some? && ValidAction(ms[0].action) && NoTruthNode(ms[0].cond.value)
    requires MappingsLand(b0, b1, ms[1..], rest) && |b2| <= |b1| + ExprSize(ms[0].cond.value)
    requires Lands(b1, b2, OutlineOf(ms[0].cond.value), -ms[0].action, rest, loc)
    ensures MappingsLand(b0, b2, ms, loc)
  {
    assert b0 <= b1 <= b2;
    ConditionEmits(b0, b1, b2, ms, rest, loc);
    if Open(ms[0].cond.value) { OpenBranches(ms[0].cond.value); }
  }

  lemma MappingTop(b0: seq<Instr>, b1: seq<Instr>, b2: seq<Instr>, ms: seq<Mapping>, rest: int, loc: int)
    requires |ms| > 1 && ms[0].cond.Some? && ValidAction(ms[0].action)
    requires MappingsBuilt(b0, b1, ms[1..], rest)
    requires Follows(b1, b2, OutlineOf(ms[0].cond.value), TopOn(ms[0].cond.value), -ms[0].action, rest, loc)
    ensures |b0| < |b2| ==> LocOk(b2, |b2| - 1) && TopYields(b2, ms)
  {
    ConditionEmits(b0, b1, b2, ms, rest, loc);
    if |b1| < |b2| {
      forall d: Data ensures Yields(b2, |b2| - 1, d, CodeOf(TopAction(ms, d))) {
        EmittedTop(b1, b2, ms, rest, d);
      }
    } else {
      assert b2 == b1;
    }
  }

  /** The condition emitted last leads to its own action or to what comes after it. */
  lemma {:induction false} EmittedTop(b1: seq<Instr>, b2: seq<Instr>, ms: seq<Mapping>, rest: int, d: Data)
    requires Emits(ms) && ValidAction(ms[0].action) && b1 <= b2 && LocOk(b1, rest) && LocOk(b2, |b2| - 1)
    requires MappingsImplemented(b1, rest, ms[1..])
    requires Decides(b2, |b2| - 1, TopOn(ms[0].cond.value), -ms[0].action, rest)
    ensures Yields(b2, |b2| - 1, d, CodeOf(TopAction(ms, d)))
  {
    ActionYields(b2, ms[0].action, d);
    assert Yields(b1, rest, d, CodeOf(FirstMapping(ms[1..], d)));
    YieldsExtends(b1, b2, rest, d, CodeOf(FirstMapping(ms[1..], d)));
    assert Yields(b2, Pick(TopOn(ms[0].cond.value)(d), -ms[0].action, rest), d, CodeOf(TopAction(ms, d)));
  }

  lemma MappingSight(b0: seq<Instr>, b1: seq<Instr>, b2: seq<Instr>, ms: seq<Mapping>, rest: int, loc: int)
    requires |ms| > 1 && ms[0].cond.Some? && ValidAction(ms[0].action)
    requires MappingsLand(b0, b1, ms[1..], rest) && MappingsKeepSight(b0, b1, ms[1..]) && rest < |b1|
    requires b1 <= b2 && KeepsSight(b1, b2, Drift(ms[0].cond.value), -ms[0].action, rest)
    ensures MappingsKeepSight(b0, b2, ms)
  {
    if MappingsCost(ms, Loose) == 0 || MappingsCost(ms, Length) <= NEAR { StaysSightedOn(b0, b1, b2); }
  }

  // ----- rules -----

  function Settled(say: Say): Option<int> {
    match say
    case Act(action) => Some(action)
    case Ask(exprs) => SettledAction(exprs)
  }

  lemma {:induction false} SettledActionSound(ms: seq<Mapping>, d: Data)
    requires HasCatchAll(ms) && SettledAction(ms).Some?
    ensures FirstMapping(ms, d) == SettledAction(ms)
  {
    if |ms| > 1 {
      var rest := ms[1..];
      assert rest[|rest| - 1] == ms[|ms| - 1];
      if SettledAction(rest).Some? { SettledActionSound(rest, d); }
      if ms[0].cond.Some? { VerdictSound(ms[0].cond.value, d); }
    }
  }

  /** What the generator settles on, every call gets. */
  lemma SettledSound(say: Say, d: Data)
    requires Settled(say).Some? && (say.Ask? ==> HasCatchAll(say.exprs))
    ensures SayAction(say, d) == Settled(say)
  {
    if say.Ask? { SettledActionSound(say.exprs, d); }
  }

  predicate Leaves(say: Say) {
    say.Ask? && LeavesCode(say.exprs)
  }

  predicate LeavesKilling(say: Say) {
    say.Ask? && LeavesKill(say.exprs)
  }

  function Leftover(say: Say, d: Data): Option<int> {
    if say.Ask? then TopAction(say.exprs, d) else None
  }

  /** The code of a rule. */
  ghost predicate RuleBuilt(b0: seq<Instr>, b: seq<Instr>, rule: Rule, loc: int) {
    if rule.IsConditional() then MappingsBuilt(b0, b, rule.exprs, loc) else b == b0 && loc == -rule.action
  }
}
