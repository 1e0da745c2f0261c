/** Why merging sorted rules and filling gaps keeps what the rules say. */
module Normalise {
  import opened Words
  import opened Actions
  import opened Bpf
  import opened Outlines
  import opened Policy
  import opened Rules

  // ----- what rules say about a number -----

  /** rule_add_expr: nothing can follow a catch-all. */
  function RuleAddExpr(ms: seq<Mapping>, m: Mapping): seq<Mapping> {
    if HasCatchAll(ms) then ms else ms + [m]
  }

  /** What is said first, and then something else: conditions that leave cases open go on. */
  function Then(a: Say, b: Say): Say {
    if a.Ask? && !HasCatchAll(a.exprs) then
      Ask(if b.Ask? then a.exprs + b.exprs else RuleAddExpr(a.exprs, Mapping(None, b.action)))
    else a
  }

  /** Conditions get the default action as their last resort. */
  function Finished(say: Say, default: int): Say {
    if say.Ask? then Ask(RuleAddExpr(say.exprs, Mapping(None, default))) else say
  }

  function OrAct(say: Option<Say>, default: int): Say {
    if say.Some? then say.value else Act(default)
  }

  /** What the rule that covers the number says. */
  function SayOf(rules: seq<Rule>, nr: u32): Option<Say> {
    if rules == [] then None
    else
      var before, last := SayOf(rules[..|rules| - 1], nr), rules[|rules| - 1];
      if before.None? && last.Covers(nr) then Some(last.Says()) else before
  }

  /** What rules for single numbers say together, one after the other. */
  function ToldOf(rules: seq<Rule>, nr: u32): Option<Say> {
    if rules == [] then None
    else
      var before, last := ToldOf(rules[..|rules| - 1], nr), rules[|rules| - 1];
      if last.first != nr then before
      else Some(if before.Some? then Then(before.value, last.Says()) else last.Says())
  }

  lemma {:induction false} SayOfSnoc(rules: seq<Rule>, x: Rule, nr: u32)
    ensures SayOf(rules + [x], nr)
         == if SayOf(rules, nr).None? && x.Covers(nr) then Some(x.Says()) else SayOf(rules, nr)
  {
    assert (rules + [x])[..|rules|] == rules;
  }

  lemma {:induction false} ToldOfSnoc(rules: seq<Rule>, x: Rule, nr: u32)
    ensures ToldOf(rules + [x], nr)
         == if x.first != nr then ToldOf(rules, nr)
            else Some(if ToldOf(rules, nr).Some? then Then(ToldOf(rules, nr).value, x.Says()) else x.Says())
  {
    assert (rules + [x])[..|rules|] == rules;
  }

  lemma {:induction false} NothingSaid(rules: seq<Rule>, nr: u32)
    requires forall k :: 0 <= k < |rules| ==> !rules[k].Covers(nr)
    ensures SayOf(rules, nr) == None
  {
    if rules != [] { NothingSaid(rules[..|rules| - 1], nr); }
  }

  lemma {:induction false} OnlySays(rules: seq<Rule>, k: nat, nr: u32)
    requires k < |rules| && rules[k].Covers(nr)
    requires forall j :: 0 <= j < |rules| && j != k ==> !rules[j].Covers(nr)
    ensures SayOf(rules, nr) == Some(rules[k].Says())
  {
    var init := rules[..|rules| - 1];
    if k < |rules| - 1 { OnlySays(init, k, nr); } else { NothingSaid(init, nr); }
  }

  /** In ascending ranges, the rule that covers the number says it all. */
  lemma {:induction false} AscendingSays(rules: seq<Rule>, k: nat, nr: u32)
    requires Ascending(rules) && k < |rules| && rules[k].Covers(nr)
    ensures SayOf(rules, nr) == Some(rules[k].Says())
  {
    AscendingOnly(rules, k, nr);
    OnlySays(rules, k, nr);
  }

  /** Between two ranges nothing is said. */
  lemma {:induction false} InGap(rules: seq<Rule>, i: nat, nr: u32)
    requires Ascending(rules) && i <= |rules|
    requires 0 < i ==> rules[i - 1].last < nr
    requires i < |rules| ==> nr < rules[i].first
    ensures SayOf(rules, nr) == None
  {
    forall k | 0 <= k < |rules| ensures !rules[k].Covers(nr) {
      AscendingOk(rules, k);
      if k < i - 1 { AscendingPair(rules, k, i - 1); AscendingOk(rules, i - 1); }
      if i < k { AscendingPair(rules, i, k); AscendingOk(rules, i); }
    }
    NothingSaid(rules, nr);
  }

  // ----- what is said decides -----

  function OrDefault(a: Option<int>, default: int): int {
    if a.Some? then a.value else default
  }

  lemma {:induction false} FirstMappingAppend(a: seq<Mapping>, b: seq<Mapping>, d: Data)
    ensures FirstMapping(a + b, d) == OrElse(FirstMapping(a, d), FirstMapping(b, d))
  {
    if a == [] {
      assert a + b == b;
    } else {
      assert (a + b)[1..] == a[1..] + b;
      FirstMappingAppend(a[1..], b, d);
    }
  }

  lemma {:induction false} AddExprDecides(ms: seq<Mapping>, action: int, d: Data)
    ensures FirstMapping(RuleAddExpr(ms, Mapping(None, action)), d)
         == OrElse(FirstMapping(ms, d), Some(action))
  {
    if HasCatchAll(ms) {
      TotalDecides(ms, d);
    } else {
      FirstMappingAppend(ms, [Mapping(None, action)], d);
      assert FirstMapping([Mapping(None, action)], d) == Some(action);
    }
  }

  lemma ThenDecides(a: Say, b: Say, d: Data)
    ensures SayAction(Then(a, b), d) == OrElse(SayAction(a, d), SayAction(b, d))
  {
    if a.Ask? {
      if HasCatchAll(a.exprs) {
        TotalDecides(a.exprs, d);
      } else if b.Ask? {
        FirstMappingAppend(a.exprs, b.exprs, d);
      } else {
        AddExprDecides(a.exprs, b.action, d);
      }
    }
  }

  lemma FinishedDecides(say: Say, default: int, d: Data)
    ensures SayAction(Finished(say, default), d) == Some(OrDefault(SayAction(say, d), default))
  {
    if say.Ask? { AddExprDecides(say.exprs, default, d); }
  }

  /** Scanning rules for single numbers is asking what they say together. */
  lemma {:induction false} ToldDecides(rules: seq<Rule>, d: Data)
    requires forall x :: x in rules ==> x.first == x.last
    ensures var told := ToldOf(rules, d.nr);
            FirstMatch(rules, d) == if told.Some? then SayAction(told.value, d) else None
  {
    if rules != [] {
      var init, last := rules[..|rules| - 1], rules[|rules| - 1];
      ToldDecides(init, d);
      if ToldOf(init, d.nr).Some? { ThenDecides(ToldOf(init, d.nr).value, last.Says(), d); }
    }
  }

  /** The order of rules for different numbers does not matter. */
  lemma {:induction false} ToldForNr(rules: seq<Rule>, nr: u32)
    ensures ToldOf(rules, nr) == ToldOf(ForNr(rules, nr), nr)
  {
    if rules != [] {
      var init, last := rules[..|rules| - 1], rules[|rules| - 1];
      ToldForNr(init, nr);
      ToldOfSnoc(ForNr(init, nr), last, nr);
      if last.first != nr { assert ForNr(rules, nr) == ForNr(init, nr); }
    }
  }

  // ----- how many default rules are missing -----

  function Gaps(rules: seq<Rule>): nat {
    if |rules| <= 1 then 0
    else Gaps(rules[..|rules| - 1])
         + if rules[|rules| - 1].first == rules[|rules| - 2].last + 1 then 0 else 1
  }

  function Missing(rules: seq<Rule>): nat
    requires rules != []
  {
    Gaps(rules)
    + (if rules[0].first == 0 then 0 else 1)
    + (if rules[|rules| - 1].last == MAX_SYSCALL_NR then 0 else 1)
  }

  lemma {:induction false} MissingAtMost(rules: seq<Rule>)
    requires rules != []
    ensures Gaps(rules) < |rules| && Missing(rules) <= |rules| + 1
  {
    if |rules| > 1 { MissingAtMost(rules[..|rules| - 1]); }
  }

  lemma {:induction false} GapsSnoc(rules: seq<Rule>, x: Rule)
    requires rules != []
    ensures Gaps(rules + [x]) == Gaps(rules) + if x.first == rules[|rules| - 1].last + 1 then 0 else 1
  {
    assert (rules + [x])[..|rules|] == rules;
  }

  /** Where a list of rules ends, and below its first rule, gaps do not depend on content. */
  lemma {:induction false} GapsShape(a: seq<Rule>, b: seq<Rule>)
    requires |a| == |b|
    requires forall k :: 0 <= k < |a| - 1 ==> a[k].last == b[k].last
    requires forall k :: 0 < k < |a| ==> a[k].first == b[k].first
    ensures Gaps(a) == Gaps(b)
  {
    if |a| > 1 { GapsShape(a[..|a| - 1], b[..|b| - 1]); }
  }

  // ----- the merged prefix says what the rules merged into it say -----

  /** A later rule for the system call of a conditional rule continues its conditions. */
  function MergeSame(prev: Rule, cur: Rule): Rule {
    if prev.IsConditional() && !HasCatchAll(prev.exprs) then
      if cur.IsConditional() then prev.(exprs := prev.exprs + cur.exprs)
      else prev.(exprs := RuleAddExpr(prev.exprs, Mapping(None, cur.action)))
    else prev
  }

  lemma MergeSameSays(prev: Rule, cur: Rule)
    requires RuleOk(prev) && RawRule(cur)
    ensures RuleOk(MergeSame(prev, cur))
    ensures MergeSame(prev, cur).Says() == Then(prev.Says(), cur.Says())
  {
  }

  lemma MergeSameCosts(prev: Rule, cur: Rule, limit: Limit)
    requires prev.IsConditional() ==> prev.first == cur.first
    ensures RuleCost(MergeSame(prev, cur), limit) <= RuleCost(prev, limit) + RuleCost(cur, limit)
  {
    if prev.IsConditional() && !HasCatchAll(prev.exprs) {
      if cur.IsConditional() {
        MappingsCostAppend(prev.exprs, cur.exprs, limit);
      } else {
        AddExprCosts(prev.exprs, cur.action, limit);
      }
    }
  }

  lemma {:induction false} AddExprCosts(ms: seq<Mapping>, action: int, limit: Limit)
    ensures MappingsCost(RuleAddExpr(ms, Mapping(None, action)), limit) == MappingsCost(ms, limit)
  {
    MappingsCostAppend(ms, [Mapping(None, action)], limit);
    assert MappingsCost([Mapping(None, action)], limit) == 0;
  }

  /** The conditions of out cost no more than those of done. */
  ghost predicate CostsUpTo(out: seq<Rule>, done: seq<Rule>) {
    forall limit :: RulesCost(out, limit) <= RulesCost(done, limit)
  }

  /** The ranges say what the rules for single numbers say together, up to the default action. */
  ghost predicate Tells(out: seq<Rule>, done: seq<Rule>, default: int) {
    forall nr: u32 :: OrAct(SayOf(out, nr), default) == OrAct(ToldOf(done, nr), default)
  }

  /** The ranges are not two parts of one range with an action other than the default. */
  predicate Apart(x: Rule, y: Rule, default: int) {
    x.action == y.action && !x.IsConditional() && x.action != default ==> y.first != x.last + 1
  }

  /** No neighbouring ranges could have been one; ranges with the default action may be neighbours. */
  predicate Coarse(rules: seq<Rule>, default: int) {
    |rules| <= 1
    || (Coarse(rules[..|rules| - 1], default) && Apart(rules[|rules| - 2], rules[|rules| - 1], default))
  }

  lemma {:induction false} CoarseSnoc(rules: seq<Rule>, x: Rule, default: int)
    requires Coarse(rules, default) && (rules != [] ==> Apart(rules[|rules| - 1], x, default))
    ensures Coarse(rules + [x], default)
  {
    assert (rules + [x])[..|rules|] == rules;
  }

  /** The last range reaching further up. */
  lemma CoarseReplaced(rules: seq<Rule>, x: Rule, default: int)
    requires rules != [] && Coarse(rules, default)
    requires x.first == rules[|rules| - 1].first && x.action == rules[|rules| - 1].action
    ensures Coarse(rules[|rules| - 1 := x], default)
  {
    assert rules[|rules| - 1 := x][..|rules| - 1] == rules[..|rules| - 1];
  }

  /** The first range reaching further down. */
  lemma {:induction false} CoarseLowered(rules: seq<Rule>, x: Rule, default: int)
    requires rules != [] && Coarse(rules, default)
    requires x.last == rules[0].last && x.action == rules[0].action
    ensures Coarse(rules[0 := x], default)
  {
    if |rules| > 1 {
      CoarseLowered(rules[..|rules| - 1], x, default);
      assert rules[0 := x][..|rules| - 1] == rules[..|rules| - 1][0 := x];
    }
  }

  lemma {:induction false} CoarsePrepend(x: Rule, rules: seq<Rule>, default: int)
    requires Coarse(rules, default) && (rules != [] ==> Apart(x, rules[0], default))
    ensures Coarse([x] + rules, default)
  {
    if rules != [] {
      CoarsePrepend(x, rules[..|rules| - 1], default);
      assert ([x] + rules)[..|rules|] == [x] + rules[..|rules| - 1];
    }
  }

  lemma {:induction false} CoarseAt(rules: seq<Rule>, k: nat, default: int)
    requires Coarse(rules, default) && 0 < k < |rules|
    ensures Apart(rules[k - 1], rules[k], default)
  {
    if k < |rules| - 1 { CoarseAt(rules[..|rules| - 1], k, default); }
  }

  ghost predicate Keeps(out: seq<Rule>, done: seq<Rule>, default: int) {
    Ascending(out) && Coarse(out, default) && CostsUpTo(out, done) && Tells(out, done, default)
  }

  /** The same between two lists of ranges. */
  ghost predicate Stays(out: seq<Rule>, rules: seq<Rule>, default: int) {
    && Ascending(out) && (Coarse(rules, default) ==> Coarse(out, default)) && CostsUpTo(out, rules)
    && forall nr: u32 :: OrAct(SayOf(out, nr), default) == OrAct(SayOf(rules, nr), default)
  }

  lemma KeepsStays(a: seq<Rule>, b: seq<Rule>, c: seq<Rule>, default: int)
    requires Keeps(b, a, default) && Stays(c, b, default)
    ensures Keeps(c, a, default)
  {
  }

  lemma StaysBoth(a: seq<Rule>, b: seq<Rule>, c: seq<Rule>, default: int)
    requires Stays(b, a, default) && Stays(c, b, default)
    ensures Stays(c, a, default)
  {
  }

  /** Between two steps: the last merged rule ends at the number read last, and says about it what
      the rules read say. */
  ghost predicate Merged(out: seq<Rule>, done: seq<Rule>, default: int) {
    && out != [] && done != [] && Keeps(out, done, default)
    && out[|out| - 1].last == done[|done| - 1].first
    && ToldOf(done, out[|out| - 1].last) == Some(out[|out| - 1].Says())
  }

  lemma {:induction false} RulesCostSnoc(rules: seq<Rule>, x: Rule, limit: Limit)
    ensures RulesCost(rules + [x], limit) == RulesCost(rules, limit) + RuleCost(x, limit)
  {
    assert (rules + [x])[..|rules|] == rules;
  }

  lemma RulesCostReplaced(rules: seq<Rule>, x: Rule, limit: Limit)
    requires rules != []
    ensures RulesCost(rules[|rules| - 1 := x], limit)
         == RulesCost(rules, limit) - RuleCost(rules[|rules| - 1], limit) + RuleCost(x, limit)
  {
    assert rules[|rules| - 1 := x][..|rules| - 1] == rules[..|rules| - 1];
  }

  lemma AscendingSnoc(out: seq<Rule>, x: Rule)
    requires Ascending(out) && RuleOk(x) && (out != [] ==> out[|out| - 1].last < x.first)
    ensures Ascending(out + [x])
  {
    AscendingPrefix(out, out + [x], |out|);
  }

  /** One more range says what it says, and the others what they said. */
  lemma {:induction false} AppendedSays(out: seq<Rule>, x: Rule, nr: u32)
    requires Ascending(out + [x])
    ensures SayOf(out + [x], nr) == if x.Covers(nr) then Some(x.Says()) else SayOf(out, nr)
  {
    if x.Covers(nr) { AscendingSays(out + [x], |out|, nr); } else { SayOfSnoc(out, x, nr); }
  }

  lemma {:induction false} AppendRule(out: seq<Rule>, done: seq<Rule>, x: Rule, done': seq<Rule>, default: int)
    requires Keeps(out, done, default) && RuleOk(x)
    requires forall limit :: RulesCost(done, limit) + RuleCost(x, limit) <= RulesCost(done', limit)
    requires out != [] ==> out[|out| - 1].last < x.first && Apart(out[|out| - 1], x, default)
    requires forall nr: u32 :: OrAct(ToldOf(done', nr), default)
               == if x.Covers(nr) then x.Says() else OrAct(ToldOf(done, nr), default)
    ensures Keeps(out + [x], done', default)
  {
    AscendingSnoc(out, x);
    CoarseSnoc(out, x, default);
    forall limit ensures RulesCost(out + [x], limit) <= RulesCost(done', limit) { RulesCostSnoc(out, x, limit); }
    forall nr: u32 ensures OrAct(SayOf(out + [x], nr), default) == OrAct(ToldOf(done', nr), default) {
      AppendedSays(out, x, nr);
    }
  }

  /** The last range reaching further. */
  lemma ReplacedSays(out: seq<Rule>, x: Rule, nr: u32)
    requires out != [] && Ascending(out) && Ascending(out[|out| - 1 := x])
    requires x.first <= out[|out| - 1].first && out[|out| - 1].last <= x.last
    ensures SayOf(out[|out| - 1 := x], nr) == if x.Covers(nr) then Some(x.Says()) else SayOf(out, nr)
  {
    var n := |out| - 1;
    assert out == out[..n] + [out[n]] && out[n := x] == out[..n] + [x];
    AppendedSays(out[..n], x, nr);
    AppendedSays(out[..n], out[n], nr);
  }

  lemma ReplaceLast(out: seq<Rule>, done: seq<Rule>, x: Rule, done': seq<Rule>, default: int)
    requires out != [] && Keeps(out, done, default) && RuleOk(x)
    requires forall limit :: RulesCost(done, limit) + RuleCost(x, limit)
                             <= RulesCost(done', limit) + RuleCost(out[|out| - 1], limit)
    requires x.first == out[|out| - 1].first && out[|out| - 1].last <= x.last && x.action == out[|out| - 1].action
    requires forall nr: u32 :: OrAct(ToldOf(done', nr), default)
               == if x.Covers(nr) then x.Says() else OrAct(ToldOf(done, nr), default)
    ensures Keeps(out[|out| - 1 := x], done', default) && Gaps(out[|out| - 1 := x]) == Gaps(out)
  {
    var out' := out[|out| - 1 := x];
    AscendingPrefix(out, out', |out| - 1);
    CoarseReplaced(out, x, default);
    forall limit ensures RulesCost(out', limit) <= RulesCost(done', limit) { RulesCostReplaced(out, x, limit); }
    forall nr: u32 ensures OrAct(SayOf(out', nr), default) == OrAct(ToldOf(done', nr), default) {
      ReplacedSays(out, x, nr);
    }
    GapsShape(out', out);
  }

  /** Nothing read so far speaks about numbers beyond the last one read. */
  predicate ReadUpTo(done: seq<Rule>, nr: u32) {
    forall k :: 0 <= k < |done| ==> done[k].first == done[k].last <= nr
  }

  lemma {:induction false} NothingBeyond(done: seq<Rule>, nr: u32, more: u32)
    requires ReadUpTo(done, nr) && nr < more
    ensures ToldOf(done, more) == None
  {
    if done != [] { NothingBeyond(done[..|done| - 1], nr, more); }
  }

  /** The first rule on its own. */
  lemma MergeStart(cur: Rule, default: int)
    requires RawRule(cur)
    ensures Merged([cur], [cur], default)
  {
    AscendingSingle(cur);
    forall nr: u32 ensures SayOf([cur], nr) == ToldOf([cur], nr) {
      assert [cur][..0] == [];
    }
    assert [cur][..0] == [];
  }

  /** A rule for the number read last. */
  lemma MergeStepSame(out: seq<Rule>, done: seq<Rule>, cur: Rule, default: int)
    requires Merged(out, done, default) && RawRule(cur) && cur.first == out[|out| - 1].last
    ensures var out' := out[|out| - 1 := MergeSame(out[|out| - 1], cur)];
            Merged(out', done + [cur], default) && Gaps(out') == Gaps(out)
  {
    var n := |out| - 1;
    var prev := out[n];
    var prev' := MergeSame(prev, cur);
    MergeSameSays(prev, cur);
    forall limit
      ensures RulesCost(done, limit) + RuleCost(prev', limit) <= RulesCost(done + [cur], limit) + RuleCost(prev, limit)
    {
      MergeSameCosts(prev, cur, limit);
      RulesCostSnoc(done, cur, limit);
    }
    forall nr: u32
      ensures OrAct(ToldOf(done + [cur], nr), default)
           == if prev'.Covers(nr) then prev'.Says() else OrAct(ToldOf(done, nr), default)
    {
      ToldOfSnoc(done, cur, nr);
      if prev.Covers(nr) { AscendingSays(out, n, nr); }
    }
    ReplaceLast(out, done, prev', done + [cur], default);
    ToldOfSnoc(done, cur, cur.first);
  }

  /** The next number with the same unconditional action. */
  lemma MergeStepExtend(out: seq<Rule>, done: seq<Rule>, cur: Rule, default: int)
    requires Merged(out, done, default) && RawRule(cur) && cur.first == out[|out| - 1].last + 1
    requires ReadUpTo(done, out[|out| - 1].last)
    requires !out[|out| - 1].IsConditional() && out[|out| - 1].action == cur.action
    ensures var out' := out[|out| - 1 := out[|out| - 1].(last := cur.last)];
            Merged(out', done + [cur], default) && Gaps(out') == Gaps(out)
  {
    var n := |out| - 1;
    var prev := out[n];
    var prev' := prev.(last := cur.last);
    NothingBeyond(done, prev.last, cur.first);
    forall limit ensures RulesCost(done, limit) <= RulesCost(done + [cur], limit) { RulesCostSnoc(done, cur, limit); }
    forall nr: u32
      ensures OrAct(ToldOf(done + [cur], nr), default)
           == if prev'.Covers(nr) then prev'.Says() else OrAct(ToldOf(done, nr), default)
    {
      ToldOfSnoc(done, cur, nr);
      if prev.Covers(nr) { AscendingSays(out, n, nr); }
    }
    ReplaceLast(out, done, prev', done + [cur], default);
    ToldOfSnoc(done, cur, cur.first);
  }

  /** x is the rule read, or the rule read reaching down over a gap with the default action. */
  predicate Stands(x: Rule, cur: Rule, default: int) {
    && RuleOk(x)
    && (x == cur || (cur.action == default != ACTION_CONDITIONAL
                     && x == cur.(first := x.first) && x.first <= cur.first))
  }

  lemma {:induction false} StandsSays(done: seq<Rule>, cur: Rule, x: Rule, nr: u32, default: int)
    requires RawRule(cur) && Stands(x, cur, default) && 0 < x.first && ReadUpTo(done, x.first - 1)
    ensures OrAct(ToldOf(done + [cur], nr), default)
         == if x.Covers(nr) then x.Says() else OrAct(ToldOf(done, nr), default)
    ensures nr == x.last ==> ToldOf(done + [cur], nr) == Some(x.Says())
  {
    ToldOfSnoc(done, cur, nr);
    if x.Covers(nr) { NothingBeyond(done, x.first - 1, nr); }
  }

  /** A rule for a later number. */
  lemma MergeStepAppend(out: seq<Rule>, done: seq<Rule>, cur: Rule, x: Rule, default: int)
    requires Keeps(out, done, default) && RawRule(cur) && Stands(x, cur, default)
    requires out != [] ==> out[|out| - 1].last < x.first && Apart(out[|out| - 1], x, default)
    requires 0 < x.first && ReadUpTo(done, x.first - 1)
    ensures Merged(out + [x], done + [cur], default)
  {
    forall limit ensures RulesCost(done + [cur], limit) == RulesCost(done, limit) + RuleCost(x, limit) {
      RulesCostSnoc(done, cur, limit);
    }
    forall nr: u32
      ensures OrAct(ToldOf(done + [cur], nr), default)
           == if x.Covers(nr) then x.Says() else OrAct(ToldOf(done, nr), default)
    {
      StandsSays(done, cur, x, nr, default);
    }
    AppendRule(out, done, x, done + [cur], default);
    StandsSays(done, cur, x, cur.first, default);
  }

  /** A default rule may reach up over a gap. */
  lemma DefaultReachesUp(out: seq<Rule>, done: seq<Rule>, hi: u32, default: int)
    requires out != [] && Keeps(out, done, default) && ReadUpTo(done, out[|out| - 1].last)
    requires out[|out| - 1].last <= hi && out[|out| - 1].action == default != ACTION_CONDITIONAL
    ensures var out' := out[|out| - 1 := out[|out| - 1].(last := hi)];
            Keeps(out', done, default) && Gaps(out') == Gaps(out)
  {
    var prev := out[|out| - 1];
    var x := prev.(last := hi);
    forall nr: u32 ensures OrAct(ToldOf(done, nr), default)
           == if x.Covers(nr) then x.Says() else OrAct(ToldOf(done, nr), default)
    {
      if prev.Covers(nr) { AscendingSays(out, |out| - 1, nr); }
      else if x.Covers(nr) { NothingBeyond(done, prev.last, nr); }
    }
    ReplaceLast(out, done, x, done, default);
  }

  /** A default rule may be put into a gap. */
  lemma DefaultFillsGap(out: seq<Rule>, done: seq<Rule>, gap: Rule, default: int)
    requires Keeps(out, done, default) && out != [] && out[|out| - 1].last < gap.first <= gap.last
    requires ReadUpTo(done, out[|out| - 1].last) && ValidAction(default)
    requires gap.action == default
    ensures Keeps(out + [gap], done, default)
  {
    forall nr: u32 ensures OrAct(ToldOf(done, nr), default)
           == if gap.Covers(nr) then gap.Says() else OrAct(ToldOf(done, nr), default)
    {
      if gap.Covers(nr) { NothingBeyond(done, out[|out| - 1].last, nr); }
    }
    AppendRule(out, done, gap, done, default);
  }

  /** A default rule at the bottom may reach down to 0. */
  lemma DefaultReachesDown(s: seq<Rule>, default: int)
    requires s != [] && Ascending(s) && s[0].action == default != ACTION_CONDITIONAL
    ensures var s' := s[0 := s[0].(first := 0)];
            Stays(s', s, default) && Gaps(s') == Gaps(s)
  {
    var x := s[0].(first := 0);
    var s' := s[0 := x];
    AscendingOk(s, 0);
    FirstLowered(s, x);
    if Coarse(s, default) { CoarseLowered(s, x, default); }
    forall nr: u32 ensures OrAct(SayOf(s', nr), default) == OrAct(SayOf(s, nr), default) {
      if k: nat :| k < |s| && s[k].Covers(nr) {
        AscendingSays(s, k, nr);
        AscendingSays(s', k, nr);
      } else {
        NothingSaid(s, nr);
        if x.Covers(nr) { AscendingSays(s', 0, nr); } else { NothingSaid(s', nr); }
      }
    }
  }

  lemma {:induction false} LoweredAscends(s: seq<Rule>, x: Rule, n: nat)
    requires 0 < n <= |s| && AscendingTo(s, n) && RuleOk(x) && x.last == s[0].last
    ensures AscendingTo(s[0 := x], n)
  {
    if n > 1 { LoweredAscends(s, x, n - 1); }
  }

  lemma FirstLowered(s: seq<Rule>, x: Rule)
    requires s != [] && Ascending(s) && RuleOk(x) && x.last == s[0].last
    requires !x.IsConditional()
    ensures Ascending(s[0 := x]) && Gaps(s[0 := x]) == Gaps(s) && CostsUpTo(s[0 := x], s)
  {
    GapsShape(s[0 := x], s);
    LoweredAscends(s, x, |s|);
    forall limit ensures RulesCost(s[0 := x], limit) <= RulesCost(s, limit) {
      WithoutCost(s, 0, limit);
      WithoutCost(s[0 := x], 0, limit);
      assert Without(s, 0) == Without(s[0 := x], 0);
    }
  }

  /** A default rule at the top may reach up to the last number. */
  lemma DefaultReachesTop(s: seq<Rule>, default: int)
    requires s != [] && Ascending(s) && s[|s| - 1].action == default != ACTION_CONDITIONAL
    ensures var s' := s[|s| - 1 := s[|s| - 1].(last := MAX_SYSCALL_NR)];
            Stays(s', s, default) && Gaps(s') == Gaps(s)
  {
    var last := s[|s| - 1];
    var x := last.(last := MAX_SYSCALL_NR);
    var s' := s[|s| - 1 := x];
    AscendingPrefix(s, s', |s| - 1);
    if Coarse(s, default) { CoarseReplaced(s, x, default); }
    GapsShape(s', s);
    forall limit ensures RulesCost(s', limit) <= RulesCost(s, limit) { RulesCostReplaced(s, x, limit); }
    forall nr: u32 ensures OrAct(SayOf(s', nr), default) == OrAct(SayOf(s, nr), default) {
      ReplacedSays(s, x, nr);
      if last.Covers(nr) { AscendingSays(s, |s| - 1, nr); }
      else if x.Covers(nr) { InGap(s, |s|, nr); }
    }
  }

  // ----- filling the gaps from the top down -----

  /** Where a list of rules starts; the empty list starts after the last number. */
  function Start(rules: seq<Rule>): int {
    if rules == [] then TWO_32 else rules[0].first
  }

  /** Total rules, each ending where the next one starts, up to the last number. */
  predicate Chained(rules: seq<Rule>) {
    rules == [] || (Total(rules[0]) && Chained(rules[1..]) && rules[0].last + 1 == Start(rules[1..]))
  }

  lemma {:induction false} ChainedIsContiguous(rules: seq<Rule>)
    requires Chained(rules)
    ensures Contiguous(rules) && (rules != [] ==> rules[|rules| - 1].last == MAX_SYSCALL_NR)
  {
    if rules != [] {
      var rest := rules[1..];
      ChainedIsContiguous(rest);
      forall k | 0 <= k < |rules| ensures Total(rules[k]) && (0 < k ==> rules[k].first == rules[k - 1].last + 1) {
        if k > 1 { assert rest[k - 1].first == rest[k - 2].last + 1; }
        if k > 0 { assert rules[k] == rest[k - 1]; }
      }
    }
  }

  lemma {:induction false} PrependChained(x: Rule, placed: seq<Rule>)
    requires Chained(placed) && Total(x) && Start(placed) == x.last + 1
    ensures Chained([x] + placed)
  {
    assert ([x] + placed)[1..] == placed;
  }

  /** What is placed costs no more than rules[i..]. */
  ghost predicate CostsAbove(placed: seq<Rule>, rules: seq<Rule>, i: nat)
    requires i <= |rules|
  {
    forall limit :: RulesCost(rules[..i], limit) + RulesCost(placed, limit) <= RulesCost(rules, limit)
  }

  /** What is placed is as coarse as the rules, and starts with the action of rules[i], or above all
      rules with the default action. */
  predicate CoarseAbove(placed: seq<Rule>, rules: seq<Rule>, i: nat, default: int) {
    && (Coarse(rules, default) ==> Coarse(placed, default))
    && (placed != [] ==> placed[0].action == if i < |rules| then rules[i].action else default)
  }

  /** The next rule down stays apart from what is placed. */
  lemma {:induction false} PlacedApart(placed: seq<Rule>, rules: seq<Rule>, i: nat, default: int)
    requires 0 < i <= |rules| && Coarse(rules, default) && CoarseAbove(placed, rules, i, default)
    requires i < |rules| ==> Start(placed) == rules[i].first
    ensures placed != [] ==> Apart(rules[i - 1], placed[0], default)
  {
    if i < |rules| { CoarseAt(rules, i, default); }
  }

  /** rules[i..] have been placed, with default rules in the gaps above rules[i]: what is placed
      reaches the last number and says the same about everything it covers, up to the default. */
  ghost predicate Placed(placed: seq<Rule>, rules: seq<Rule>, i: nat, default: int)
    requires rules != [] && i <= |rules|
  {
    && Chained(placed) && CostsAbove(placed, rules, i) && CoarseAbove(placed, rules, i, default)
    && Start(placed) == (if i < |rules| then rules[i].first else rules[i - 1].last + 1)
    && PlacedSays(placed, rules, Start(placed), default)
  }

  ghost predicate PlacedSays(placed: seq<Rule>, rules: seq<Rule>, lo: int, default: int) {
    forall nr: u32 :: lo <= nr ==> SayOf(placed, nr) == Some(Finished(OrAct(SayOf(rules, nr), default), default))
  }

  /** A conditional rule gets the default action as its last resort. */
  function WithDefault(r: Rule, default: int): Rule {
    if r.IsConditional() then r.(exprs := RuleAddExpr(r.exprs, Mapping(None, default))) else r
  }

  lemma WithDefaultSays(r: Rule, default: int)
    requires RuleOk(r) && ValidAction(default)
    ensures Total(WithDefault(r, default))
    ensures WithDefault(r, default).Says() == Finished(r.Says(), default)
  {
  }

  lemma WithDefaultCosts(r: Rule, default: int, limit: Limit)
    ensures RuleCost(WithDefault(r, default), limit) == RuleCost(r, limit)
  {
    if r.IsConditional() { AddExprCosts(r.exprs, default, limit); }
  }

  /** The next rule down costs what it did before it was placed, and a default rule nothing. */
  lemma PlacedCosts(placed: seq<Rule>, rules: seq<Rule>, i: nat, x: Rule, default: int)
    requires 0 < i <= |rules| && CostsAbove(placed, rules, i) && x == WithDefault(rules[i - 1], default)
    ensures CostsAbove([x] + placed, rules, i - 1)
  {
    forall limit
      ensures RulesCost(rules[..i - 1], limit) + RulesCost([x] + placed, limit) <= RulesCost(rules, limit)
    {
      RulesCostNext(rules, i - 1, limit);
      RulesCostAppend([x], placed, limit);
      RulesCostSingle(x, limit);
      WithDefaultCosts(rules[i - 1], default, limit);
    }
  }

  lemma GapCostsNothing(gap: Rule, placed: seq<Rule>, rules: seq<Rule>, i: nat)
    requires i <= |rules| && !gap.IsConditional() && CostsAbove(placed, rules, i)
    ensures CostsAbove([gap] + placed, rules, i)
  {
    forall limit ensures RulesCost(rules[..i], limit) + RulesCost([gap] + placed, limit) <= RulesCost(rules, limit) {
      RulesCostAppend([gap], placed, limit);
      RulesCostSingle(gap, limit);
    }
  }

  lemma {:induction false} SayOfPrepend(x: Rule, rules: seq<Rule>, nr: u32)
    ensures SayOf([x] + rules, nr) == if x.Covers(nr) then Some(x.Says()) else SayOf(rules, nr)
  {
    if rules == [] {
      assert [x] + rules == [x] && [x][..0] == [];
    } else {
      assert ([x] + rules)[..|rules|] == [x] + rules[..|rules| - 1];
      SayOfPrepend(x, rules[..|rules| - 1], nr);
    }
  }

  /** Put one more rule below what is placed. */
  lemma {:induction false} PrependSays(x: Rule, placed: seq<Rule>, rules: seq<Rule>, default: int)
    requires x.first <= x.last && Start(placed) == x.last + 1 && PlacedSays(placed, rules, Start(placed), default)
    requires forall nr: u32 :: x.Covers(nr) ==> x.Says() == Finished(OrAct(SayOf(rules, nr), default), default)
    ensures PlacedSays([x] + placed, rules, x.first, default)
  {
    forall nr: u32 | x.first <= nr
      ensures SayOf([x] + placed, nr) == Some(Finished(OrAct(SayOf(rules, nr), default), default))
    {
      SayOfPrepend(x, placed, nr);
    }
  }

  /** The next rule down, directly below what is placed. */
  lemma {:induction false} PlaceRule(placed: seq<Rule>, rules: seq<Rule>, i: nat, default: int)
    requires Ascending(rules) && 0 < i <= |rules| && ValidAction(default)
    requires Chained(placed) && CostsAbove(placed, rules, i) && PlacedSays(placed, rules, Start(placed), default)
    requires Start(placed) == rules[i - 1].last + 1
    requires Coarse(rules, default) ==>
               Coarse(placed, default) && (placed != [] ==> Apart(rules[i - 1], placed[0], default))
    ensures Placed([WithDefault(rules[i - 1], default)] + placed, rules, i - 1, default)
  {
    var cur := rules[i - 1];
    var x := WithDefault(cur, default);
    AscendingOk(rules, i - 1);
    WithDefaultSays(cur, default);
    PrependChained(x, placed);
    if Coarse(rules, default) { CoarsePrepend(x, placed, default); }
    PlacedCosts(placed, rules, i, x, default);
    forall nr: u32 | x.Covers(nr) ensures x.Says() == Finished(OrAct(SayOf(rules, nr), default), default) {
      AscendingSays(rules, i - 1, nr);
    }
    PrependSays(x, placed, rules, default);
  }

  /** A default rule in the gap below rules[i], or above the last rule, or below the first. */
  lemma {:induction false} PlaceGap(placed: seq<Rule>, rules: seq<Rule>, i: nat, gap: Rule, default: int)
    requires Ascending(rules) && rules != [] && i <= |rules| && ValidAction(default)
    requires gap.action == default && gap.first <= gap.last
    requires gap.first == if 0 < i then rules[i - 1].last + 1 else 0
    requires gap.last == if i < |rules| then rules[i].first - 1 else MAX_SYSCALL_NR
    requires i < |rules| ==> Placed(placed, rules, i, default)
    requires i == |rules| ==> placed == []
    ensures Chained([gap] + placed) && CostsAbove([gap] + placed, rules, i)
    ensures Coarse(rules, default) ==> Coarse([gap] + placed, default)
    ensures PlacedSays([gap] + placed, rules, gap.first, default)
  {
    PrependChained(gap, placed);
    if Coarse(rules, default) { CoarsePrepend(gap, placed, default); }
    if i == |rules| { assert rules[..i] == rules; }
    GapCostsNothing(gap, placed, rules, i);
    forall nr: u32 | gap.Covers(nr) ensures gap.Says() == Finished(OrAct(SayOf(rules, nr), default), default) {
      InGap(rules, i, nr);
    }
    PrependSays(gap, placed, rules, default);
  }

  /** The next rule down and the default rule in the gap above it. */
  lemma PlaceGapAndRule(placed: seq<Rule>, rules: seq<Rule>, i: nat, gap: Rule, default: int)
    requires Ascending(rules) && 0 < i < |rules| && ValidAction(default)
    requires Placed(placed, rules, i, default)
    requires gap.action == default && gap.first == rules[i - 1].last + 1 && gap.last == rules[i].first - 1
    requires gap.first <= gap.last
    ensures Placed([WithDefault(rules[i - 1], default)] + ([gap] + placed), rules, i - 1, default)
  {
    PlaceGap(placed, rules, i, gap, default);
    PlaceRule([gap] + placed, rules, i, default);
  }

  // ----- placing the rules in the array they came from -----

  /** A partition that says what the ranges say, with the default action last. */
  ghost predicate Completes(parts: seq<Rule>, rules: seq<Rule>, default: int) {
    && Partition(parts) && CostsUpTo(parts, rules) && PlacedSays(parts, rules, 0, default)
    && (Coarse(rules, default) ==> Coarse(parts, default))
  }

  /** A partition that says what the rules for single numbers say together, with the default action
      last, in ranges as wide as they can be. */
  ghost predicate Normalised(parts: seq<Rule>, rules: seq<Rule>, default: int) {
    && Partition(parts) && Coarse(parts, default) && CostsUpTo(parts, rules)
    && forall nr: u32 :: SayOf(parts, nr) == Some(Finished(OrAct(ToldOf(rules, nr), default), default))
  }

  /** Without rules, a single range with the default action is all there is to say. */
  lemma WholeRange(x: Rule, default: int)
    requires x.first == 0 && x.last == MAX_SYSCALL_NR && x.action == default && ValidAction(default) && x.exprs == []
    ensures Normalised([x], [], default)
  {
    AscendingSingle(x);
    forall nr: u32 ensures SayOf([x], nr) == Some(Act(default)) {
      AscendingSays([x], 0, nr);
    }
    forall limit ensures RulesCost([x], limit) == 0 { RulesCostSingle(x, limit); }
  }

  lemma CompletesKept(parts: seq<Rule>, out: seq<Rule>, rules: seq<Rule>, default: int)
    requires Completes(parts, out, default) && Keeps(out, rules, default)
    ensures Normalised(parts, rules, default)
  {
  }

  /** So it decides every system call as scanning the rules does, with the default last. */
  lemma {:induction false} NormalisedDecides(parts: seq<Rule>, rules: seq<Rule>, default: int, d: Data)
    requires Normalised(parts, rules, default) && forall x :: x in rules ==> x.first == x.last
    ensures FirstMatch(parts, d) == Some(Decide(rules, d, default))
  {
    var k := CoveringRule(parts, d.nr);
    ContiguousIsAscending(parts);
    AscendingMatch(parts, k, d);
    AscendingSays(parts, k, d.nr);
    FinishedDecides(OrAct(ToldOf(rules, d.nr), default), default, d);
    ToldDecides(rules, d);
  }

  /** The default rules still to be put in once rules[i..] have been placed. */
  function GapsLeft(rules: seq<Rule>, i: nat): nat
    requires rules != [] && i <= |rules|
  {
    Gaps(if i < |rules| then rules[..i + 1] else rules) + if rules[0].first == 0 then 0 else 1
  }

  /** The state of the array: rules[i..] and the default rules above rules[i] are placed from top
      on, and the rules below i are where they were. */
  ghost predicate PlacedFrom(all: seq<Rule>, i: nat, top: nat, rules: seq<Rule>, default: int)
    requires rules != []
  {
    && i <= |rules| && i <= top <= |all| && (i < |rules| ==> top < |all|)
    && all[..i] == rules[..i]
    && Placed(all[top..], rules, i, default)
  }

  /** Between the two parts there is room for exactly what is missing. */
  ghost predicate Placing(all: seq<Rule>, i: nat, toAdd: nat, rules: seq<Rule>, default: int)
    requires rules != []
  {
    PlacedFrom(all, i, i + toAdd, rules, default) && toAdd == GapsLeft(rules, i)
  }

  lemma GapsLeftBelow(rules: seq<Rule>, i: nat)
    requires Ascending(rules) && 0 < i <= |rules|
    ensures GapsLeft(rules, i) == GapsLeft(rules, i - 1)
              + if i < |rules| && rules[i].first != rules[i - 1].last + 1 then 1 else 0
    ensures i < |rules| ==> rules[i - 1].last < rules[i].first
  {
    if i < |rules| {
      AscendingPair(rules, i - 1, i);
      assert rules[..i + 1] == rules[..i] + [rules[i]];
      GapsSnoc(rules[..i], rules[i]);
    } else {
      assert rules[..i] == rules;
    }
  }

  /** Move the rule at i - 1 up, directly below the rules placed before. */
  lemma PlacingRule(all: seq<Rule>, i: nat, toAdd: nat, rules: seq<Rule>, default: int)
    requires Ascending(rules) && ValidAction(default) && 0 < i <= |rules| && Placing(all, i, toAdd, rules, default)
    requires i < |rules| ==> rules[i].first == rules[i - 1].last + 1
    ensures Placing(all[i + toAdd - 1 := WithDefault(rules[i - 1], default)], i - 1, toAdd, rules, default)
  {
    GapsLeftBelow(rules, i);
    RulePlaced(all, i, i + toAdd, rules, default);
    PlacingAgain(all[i + toAdd - 1 := WithDefault(rules[i - 1], default)], i - 1, toAdd, i + toAdd - 1, rules, default);
  }

  lemma PlacingAgain(all: seq<Rule>, i: nat, toAdd: nat, top: nat, rules: seq<Rule>, default: int)
    requires rules != [] && i <= |rules| && toAdd == GapsLeft(rules, i) && top == i + toAdd
    requires PlacedFrom(all, i, top, rules, default)
    ensures Placing(all, i, toAdd, rules, default)
  {
  }

  lemma RulePlaced(all: seq<Rule>, i: nat, top: nat, rules: seq<Rule>, default: int)
    requires Ascending(rules) && ValidAction(default) && 0 < i <= |rules| && PlacedFrom(all, i, top, rules, default)
    requires i < |rules| ==> rules[i].first == rules[i - 1].last + 1
    ensures PlacedFrom(all[top - 1 := WithDefault(rules[i - 1], default)], i - 1, top - 1, rules, default)
  {
    var placed, x := all[top..], WithDefault(rules[i - 1], default);
    NextPlaced(placed, rules, i, default);
    WrittenBelow(all, rules, i, top, x);
    AllPlacedFrom(all[top - 1 := x], i - 1, top - 1, [x] + placed, rules, default);
  }

  lemma NextPlaced(placed: seq<Rule>, rules: seq<Rule>, i: nat, default: int)
    requires Ascending(rules) && ValidAction(default) && 0 < i <= |rules| && Placed(placed, rules, i, default)
    requires i < |rules| ==> rules[i].first == rules[i - 1].last + 1
    ensures Placed([WithDefault(rules[i - 1], default)] + placed, rules, i - 1, default)
  {
    if Coarse(rules, default) { PlacedApart(placed, rules, i, default); }
    PlaceRule(placed, rules, i, default);
  }

  /** Writing below top leaves what is below i alone. */
  lemma WrittenBelow(all: seq<Rule>, rules: seq<Rule>, i: nat, top: nat, x: Rule)
    requires 0 < i <= |rules| && i <= top <= |all| && all[..i] == rules[..i]
    ensures all[top - 1 := x][top - 1..] == [x] + all[top..]
    ensures all[top - 1 := x][..i - 1] == rules[..i - 1]
    ensures i < top ==> all[top - 1 := x][..i] == rules[..i]
  {
    assert rules[..i][..i - 1] == rules[..i - 1];
  }

  /** Move the rule at i - 1 up, with a default rule in the gap above it. */
  lemma PlacingGap(all: seq<Rule>, i: nat, toAdd: nat, gap: Rule, rules: seq<Rule>, default: int)
    requires Ascending(rules) && ValidAction(default) && 0 < i < |rules| && Placing(all, i, toAdd, rules, default)
    requires rules[i].first != rules[i - 1].last + 1
    requires gap.action == default && gap.first == rules[i - 1].last + 1 && gap.last == rules[i].first - 1
    ensures 0 < toAdd
    ensures Placing(all[i + toAdd - 1 := gap][i + toAdd - 2 := WithDefault(rules[i - 1], default)],
                    i - 1, toAdd - 1, rules, default)
  {
    GapsLeftBelow(rules, i);
    GapPlaced(all, i, i + toAdd, gap, rules, default);
    PlacingAgain(all[i + toAdd - 1 := gap][i + toAdd - 2 := WithDefault(rules[i - 1], default)],
                 i - 1, toAdd - 1, i + toAdd - 2, rules, default);
  }

  lemma GapPlaced(all: seq<Rule>, i: nat, top: nat, gap: Rule, rules: seq<Rule>, default: int)
    requires Ascending(rules) && ValidAction(default) && 0 < i < |rules| && i < top
    requires PlacedFrom(all, i, top, rules, default) && rules[i - 1].last < rules[i].first
    requires rules[i].first != rules[i - 1].last + 1
    requires gap.action == default && gap.first == rules[i - 1].last + 1 && gap.last == rules[i].first - 1
    ensures PlacedFrom(all[top - 1 := gap][top - 2 := WithDefault(rules[i - 1], default)],
                       i - 1, top - 2, rules, default)
  {
    var placed, x := all[top..], WithDefault(rules[i - 1], default);
    PlaceGapAndRule(placed, rules, i, gap, default);
    BothWrittenBelow(all, rules, i, top, gap, x);
    AllPlacedFrom(all[top - 1 := gap][top - 2 := x], i - 1, top - 2, [x] + ([gap] + placed), rules, default);
  }

  lemma BothWrittenBelow(all: seq<Rule>, rules: seq<Rule>, i: nat, top: nat, gap: Rule, x: Rule)
    requires 0 < i <= |rules| && i < top <= |all| && all[..i] == rules[..i]
    ensures all[top - 1 := gap][top - 2 := x][top - 2..] == [x] + ([gap] + all[top..])
    ensures all[top - 1 := gap][top - 2 := x][..i - 1] == rules[..i - 1]
  {
    WrittenBelow(all, rules, i, top, gap);
    WrittenBelow(all[top - 1 := gap], rules, i, top - 1, x);
  }

  lemma AllPlacedFrom(all: seq<Rule>, i: nat, top: nat, placed: seq<Rule>, rules: seq<Rule>, default: int)
    requires i < |rules| && i <= top < |all| && all[..i] == rules[..i] && all[top..] == placed
    requires Placed(placed, rules, i, default)
    ensures PlacedFrom(all, i, top, rules, default)
  {
  }

  /** What is found in the array at the rule to be moved and at the rule placed last. */
  lemma PlacingReads(all: seq<Rule>, i: nat, toAdd: nat, dst: nat, rules: seq<Rule>, default: int)
    requires rules != [] && 0 < i && Placing(all, i, toAdd, rules, default) && dst == i - 1 + toAdd
    ensures i <= |rules| && all[i - 1] == rules[i - 1] && dst < |all|
    ensures i < |rules| ==> dst + 1 < |all| && all[dst + 1].first == rules[i].first
  {
    assert all[i - 1] == all[..i][i - 1];
    if i < |rules| { assert all[dst + 1] == all[i + toAdd..][0]; }
  }

  /** The gap above the last rule. */
  lemma PlacingTop(all: seq<Rule>, toAdd: nat, gap: Rule, rules: seq<Rule>, default: int)
    requires Ascending(rules) && rules != [] && ValidAction(default)
    requires |all| == |rules| + toAdd && all[..|rules|] == rules && toAdd == Missing(rules)
    requires rules[|rules| - 1].last < MAX_SYSCALL_NR
    requires gap.action == default && gap.first == rules[|rules| - 1].last + 1 && gap.last == MAX_SYSCALL_NR
    ensures 0 < toAdd && Placing(all[|all| - 1 := gap], |rules|, toAdd - 1, rules, default)
  {
    TopPlaced(rules, gap, default);
    assert rules[..|rules|] == rules;
    WrittenBelow(all, rules, |rules|, |all|, gap);
    assert all[|all| - 1 := gap][|all| - 1..] == [gap];
  }

  lemma TopPlaced(rules: seq<Rule>, gap: Rule, default: int)
    requires Ascending(rules) && rules != [] && ValidAction(default)
    requires gap.action == default && gap.first == rules[|rules| - 1].last + 1 && gap.last == MAX_SYSCALL_NR
    requires rules[|rules| - 1].last < MAX_SYSCALL_NR
    ensures Placed([gap], rules, |rules|, default)
  {
    PlaceGap([], rules, |rules|, gap, default);
    assert [gap] + [] == [gap];
  }

  lemma PlacingStart(all: seq<Rule>, toAdd: nat, rules: seq<Rule>, default: int)
    requires Ascending(rules) && rules != []
    requires |all| == |rules| + toAdd && all[..|rules|] == rules && toAdd == Missing(rules)
    requires rules[|rules| - 1].last == MAX_SYSCALL_NR
    ensures Placing(all, |rules|, toAdd, rules, default)
  {
    assert rules == rules[..|rules|];
  }

  /** The gap below the first rule. */
  lemma PlacingBottom(all: seq<Rule>, gap: Rule, rules: seq<Rule>, default: int)
    requires Ascending(rules) && rules != [] && ValidAction(default) && Placing(all, 0, 1, rules, default)
    requires gap.action == default && gap.first == 0 && gap.last == rules[0].first - 1
    ensures Completes(all[0 := gap], rules, default)
  {
    PlaceGap(all[1..], rules, 0, gap, default);
    assert all[0 := gap] == [gap] + all[1..];
    ChainedIsContiguous(all[0 := gap]);
  }

  lemma PlacingEnd(all: seq<Rule>, rules: seq<Rule>, default: int)
    requires rules != [] && Placing(all, 0, 0, rules, default)
    ensures Completes(all, rules, default)
  {
    assert all[0..] == all;
    ChainedIsContiguous(all);
  }
}
