/** Range rules: what a list of them decides, and what makes a list a partition of the
    system call numbers. */
module Rules {
  import opened Words
  import opened Actions
  import opened Bpf
  import opened Expression
  import opened Outlines
  import opened Policy

  const MAX_SYSCALL_NR: u32 := UINT32_MAX
  const ACTION_CONDITIONAL: int := -0x8000_0000

  /** A condition with its action; None is a condition that always holds. */
  datatype Mapping = Mapping(cond: Option<BoolExpr>, action: int)

  /** What is said about a system call: an action, or conditions with their actions. */
  datatype Say = Act(action: int) | Ask(exprs: seq<Mapping>)

  datatype Rule = Rule(first: u32, last: u32, action: int, priority: int, exprs: seq<Mapping>)
  {
    predicate IsConditional() { action == ACTION_CONDITIONAL }

    predicate Covers(nr: u32) { first <= nr <= last }

    function Says(): Say { if IsConditional() then Ask(exprs) else Act(action) }
  }

  function Unconditional(first: u32, last: u32, action: int): Rule {
    Rule(first, last, action, 0, [])
  }

  // ----- meaning -----

  predicate MappingHolds(m: Mapping, d: Data) {
    m.cond.None? || Holds(m.cond.value, d)
  }

  /** The action of the first mapping whose condition holds. */
  function FirstMapping(ms: seq<Mapping>, d: Data): Option<int> {
    if ms == [] then None
    else if MappingHolds(ms[0], d) then Some(ms[0].action)
    else FirstMapping(ms[1..], d)
  }

  function SayAction(say: Say, d: Data): Option<int> {
    match say
    case Act(action) => Some(action)
    case Ask(exprs) => FirstMapping(exprs, d)
  }

  /** What a rule decides about a system call it covers. */
  function RuleAction(r: Rule, d: Data): Option<int> {
    SayAction(r.Says(), d)
  }

  function Applies(r: Rule, d: Data): Option<int> {
    if r.Covers(d.nr) then RuleAction(r, d) else None
  }

  /** The action of the first rule that covers the system call and has something to say. */
  function FirstMatch(rules: seq<Rule>, d: Data): Option<int> {
    if rules == [] then None
    else OrElse(FirstMatch(rules[..|rules| - 1], d), Applies(rules[|rules| - 1], d))
  }

  function Decide(rules: seq<Rule>, d: Data, default: int): int {
    var m := FirstMatch(rules, d);
    if m.Some? then m.value else default
  }

  // ----- what the conditions cost -----

  function MappingCost(m: Mapping, limit: Limit): nat {
    if m.cond.Some? then CondCost(m.cond.value, limit) else 0
  }

  function MappingsCost(ms: seq<Mapping>, limit: Limit): nat {
    if ms == [] then 0 else MappingCost(ms[0], limit) + MappingsCost(ms[1..], limit)
  }

  function RuleCost(r: Rule, limit: Limit): nat {
    if r.IsConditional() && limit.Counts(r.first) then MappingsCost(r.exprs, limit) else 0
  }

  function RulesCost(rules: seq<Rule>, limit: Limit): nat {
    if rules == [] then 0
    else RulesCost(rules[..|rules| - 1], limit) + RuleCost(rules[|rules| - 1], limit)
  }

  /** Conditions are simplified before they are compiled. */
  function SourceCost(r: SourceRule, limit: Limit): nat {
    if r.filter.expr.Some? && limit.Counts(r.filter.nr) then CondCost(Simplify(r.filter.expr.value), limit) else 0
  }

  function SourcesCost(rules: seq<SourceRule>, limit: Limit): nat {
    if rules == [] then 0
    else SourcesCost(rules[..|rules| - 1], limit) + SourceCost(rules[|rules| - 1], limit)
  }

  lemma {:induction false} MappingsCostAppend(a: seq<Mapping>, b: seq<Mapping>, limit: Limit)
    ensures MappingsCost(a + b, limit) == MappingsCost(a, limit) + MappingsCost(b, limit)
  {
    if a == [] {
      assert a + b == b;
    } else {
      assert (a + b)[1..] == a[1..] + b;
      MappingsCostAppend(a[1..], b, limit);
    }
  }

  lemma {:induction false} RulesCostAppend(a: seq<Rule>, b: seq<Rule>, limit: Limit)
    ensures RulesCost(a + b, limit) == RulesCost(a, limit) + RulesCost(b, limit)
    decreases |b|
  {
    if b == [] {
      assert a + b == a;
    } else {
      assert (a + b)[..|a + b| - 1] == a + b[..|b| - 1];
      RulesCostAppend(a, b[..|b| - 1], limit);
    }
  }

  lemma {:induction false} SourcesCostAppend(a: seq<SourceRule>, b: seq<SourceRule>, limit: Limit)
    ensures SourcesCost(a + b, limit) == SourcesCost(a, limit) + SourcesCost(b, limit)
    decreases |b|
  {
    if b == [] {
      assert a + b == a;
    } else {
      assert (a + b)[..|a + b| - 1] == a + b[..|b| - 1];
      SourcesCostAppend(a, b[..|b| - 1], limit);
    }
  }

  lemma {:induction false} RulesCostSingle(r: Rule, limit: Limit)
    ensures RulesCost([r], limit) == RuleCost(r, limit)
  {
    assert [r][..0] == [];
  }

  lemma {:induction false} RulesCostNext(rules: seq<Rule>, i: nat, limit: Limit)
    requires i < |rules|
    ensures RulesCost(rules[..i + 1], limit) == RulesCost(rules[..i], limit) + RuleCost(rules[i], limit)
  {
    assert rules[..i + 1][..i] == rules[..i];
  }

  lemma {:induction false} RulesCostEach(rules: seq<Rule>, i: nat, limit: Limit)
    requires i < |rules|
    ensures RuleCost(rules[i], limit) <= RulesCost(rules, limit)
  {
    if i < |rules| - 1 { RulesCostEach(rules[..|rules| - 1], i, limit); }
  }

  lemma {:induction false} MappingsCostNext(ms: seq<Mapping>, k: nat, limit: Limit)
    requires k < |ms|
    ensures MappingsCost(ms[k..], limit) == MappingCost(ms[k], limit) + MappingsCost(ms[k + 1..], limit)
  {
    assert ms[k..][1..] == ms[k + 1..];
  }

  lemma {:induction false} MappingsCostAt(ms: seq<Mapping>, nr: u32)
    ensures MappingsCost(ms, At(nr)) == MappingsCost(ms, Length)
  {
    if ms != [] { MappingsCostAt(ms[1..], nr); }
  }

  function Without(s: seq<Rule>, k: nat): seq<Rule>
    requires k < |s|
  {
    s[..k] + s[k + 1..]
  }

  lemma WithoutElements(s: seq<Rule>, k: nat)
    requires k < |s|
    ensures multiset(Without(s, k)) == multiset(s) - multiset{s[k]}
  {
    assert s == s[..k] + [s[k]] + s[k + 1..];
  }

  lemma {:induction false} WithoutCost(s: seq<Rule>, k: nat, limit: Limit)
    requires k < |s|
    ensures RulesCost(s, limit) == RulesCost(Without(s, k), limit) + RuleCost(s[k], limit)
  {
    var a, b := s[..k], s[k + 1..];
    assert s == a + [s[k]] + b;
    RulesCostAppend(a, b, limit);
    RulesCostAppend(a + [s[k]], b, limit);
    RulesCostAppend(a, [s[k]], limit);
    RulesCostSingle(s[k], limit);
  }

  /** Reordering rules does not change their cost. */
  lemma {:induction false} RulesCostReordered(a: seq<Rule>, b: seq<Rule>, limit: Limit)
    requires multiset(a) == multiset(b)
    ensures RulesCost(a, limit) == RulesCost(b, limit)
    decreases |a|
  {
    if a == [] {
      assert |b| == |multiset(b)|;
    } else {
      assert a[0] in multiset(b);
      var k :| 0 <= k < |b| && b[k] == a[0];
      WithoutElements(a, 0);
      WithoutElements(b, k);
      RulesCostReordered(Without(a, 0), Without(b, k), limit);
      WithoutCost(a, 0, limit);
      WithoutCost(b, k, limit);
    }
  }

  // ----- well-formed rules -----

  predicate HasCatchAll(ms: seq<Mapping>) {
    ms != [] && (ms[|ms| - 1].cond.None? || ms[|ms| - 1].cond == Some(True))
  }

  predicate MappingsOk(ms: seq<Mapping>) {
    && ms != []
    && (forall i :: 0 <= i < |ms| ==> ValidAction(ms[i].action))
    && (forall i :: 0 <= i < |ms| && ms[i].cond.Some? ==> NoTruthNode(ms[i].cond.value))
    && (forall i :: 0 <= i < |ms| - 1 ==> ms[i].cond.Some?)
  }

  predicate RuleOk(r: Rule) {
    && r.first <= r.last
    && if r.IsConditional() then r.first == r.last && MappingsOk(r.exprs) else ValidAction(r.action)
  }

  /** A rule as add_filters makes it: one system call, at most one condition. */
  predicate RawRule(r: Rule) {
    && RuleOk(r) && r.first == r.last
    && (r.IsConditional() ==> |r.exprs| == 1 && r.exprs[0].cond.Some?)
  }

  /** Conditional rules end in a catch-all. */
  predicate Total(r: Rule) {
    RuleOk(r) && (r.IsConditional() ==> HasCatchAll(r.exprs))
  }

  /** Total rules in ascending order, each starting where the one before ended. */
  predicate Contiguous(rules: seq<Rule>) {
    && (forall k :: 0 <= k < |rules| ==> Total(rules[k]))
    && (forall k :: 0 < k < |rules| ==> rules[k].first == rules[k - 1].last + 1)
  }

  predicate Partition(rules: seq<Rule>) {
    && rules != [] && Contiguous(rules)
    && rules[0].first == 0 && rules[|rules| - 1].last == MAX_SYSCALL_NR
  }

  // ----- scanning -----

  lemma {:induction false} FirstMatchAppend(a: seq<Rule>, b: seq<Rule>, d: Data)
    ensures FirstMatch(a + b, d) == OrElse(FirstMatch(a, d), FirstMatch(b, d))
    decreases |b|
  {
    if b == [] {
      assert a + b == a;
    } else {
      assert (a + b)[..|a + b| - 1] == a + b[..|b| - 1];
      FirstMatchAppend(a, b[..|b| - 1], d);
    }
  }

  lemma {:induction false} FirstMatchSnoc(rules: seq<Rule>, x: Rule, d: Data)
    ensures FirstMatch(rules + [x], d) == OrElse(FirstMatch(rules, d), Applies(x, d))
  {
    assert (rules + [x])[..|rules|] == rules;
  }

  lemma {:induction false} NoMatch(rules: seq<Rule>, d: Data)
    requires forall k :: 0 <= k < |rules| ==> !rules[k].Covers(d.nr)
    ensures FirstMatch(rules, d) == None
  {
    if rules != [] { NoMatch(rules[..|rules| - 1], d); }
  }

  lemma {:induction false} FirstMatchSingle(r: Rule, d: Data)
    ensures FirstMatch([r], d) == Applies(r, d)
  {
    assert [r][..0] == [];
  }

  /** In a list of rules with disjoint ranges, the one that covers a number decides it. */
  lemma {:induction false} OnlyMatch(rules: seq<Rule>, k: nat, d: Data)
    requires k < |rules| && rules[k].Covers(d.nr)
    requires forall j :: 0 <= j < |rules| && j != k ==> !rules[j].Covers(d.nr)
    ensures FirstMatch(rules, d) == RuleAction(rules[k], d)
  {
    var a, b := rules[..k], rules[k + 1..];
    assert rules == a + [rules[k]] + b;
    NoMatch(a, d);
    NoMatch(b, d);
    FirstMatchAppend(a + [rules[k]], b, d);
    FirstMatchAppend(a, [rules[k]], d);
    FirstMatchSingle(rules[k], d);
  }

  /** Rules in strictly ascending, disjoint ranges. */
  predicate Ascending(rules: seq<Rule>) {
    AscendingTo(rules, |rules|)
  }

  predicate AscendingTo(rules: seq<Rule>, n: nat)
    requires n <= |rules|
  {
    n == 0 || (AscendingTo(rules, n - 1) && RuleOk(rules[n - 1]) && (n > 1 ==> rules[n - 2].last < rules[n - 1].first))
  }

  lemma AscendingSingle(x: Rule)
    requires RuleOk(x)
    ensures Ascending([x])
  {
    assert AscendingTo([x], 0);
  }

  lemma {:induction false} AscendingPrefix(a: seq<Rule>, b: seq<Rule>, n: nat)
    requires n <= |a| && n <= |b| && AscendingTo(a, n) && forall k :: 0 <= k < n ==> b[k] == a[k]
    ensures AscendingTo(b, n)
  {
    if n > 0 { AscendingPrefix(a, b, n - 1); }
  }

  lemma {:induction false} AscendingToOk(rules: seq<Rule>, n: nat, k: nat)
    requires k < n <= |rules| && AscendingTo(rules, n)
    ensures RuleOk(rules[k])
  {
    if k < n - 1 { AscendingToOk(rules, n - 1, k); }
  }

  lemma AscendingOk(rules: seq<Rule>, k: nat)
    requires Ascending(rules) && k < |rules|
    ensures RuleOk(rules[k])
  {
    AscendingToOk(rules, |rules|, k);
  }

  lemma {:induction false} AscendingToPair(rules: seq<Rule>, n: nat, j: nat, k: nat)
    requires j < k < n <= |rules| && AscendingTo(rules, n)
    ensures rules[j].last < rules[k].first
  {
    if k < n - 1 {
      AscendingToPair(rules, n - 1, j, k);
    } else if j < k - 1 {
      AscendingToPair(rules, n - 1, j, k - 1);
      AscendingToOk(rules, n - 1, k - 1);
    }
  }

  lemma AscendingPair(rules: seq<Rule>, j: nat, k: nat)
    requires Ascending(rules) && j < k < |rules|
    ensures rules[j].last < rules[k].first
  {
    AscendingToPair(rules, |rules|, j, k);
  }

  /** No other rule covers a number that this one covers. */
  lemma AscendingOnly(rules: seq<Rule>, k: nat, nr: u32)
    requires Ascending(rules) && k < |rules| && rules[k].Covers(nr)
    ensures forall j :: 0 <= j < |rules| && j != k ==> !rules[j].Covers(nr)
  {
    forall j | 0 <= j < |rules| && j != k ensures !rules[j].Covers(nr) {
      if j < k { AscendingPair(rules, j, k); } else { AscendingPair(rules, k, j); }
    }
  }

  lemma {:induction false} AscendingMatch(rules: seq<Rule>, k: nat, d: Data)
    requires Ascending(rules) && k < |rules| && rules[k].Covers(d.nr)
    ensures FirstMatch(rules, d) == RuleAction(rules[k], d)
  {
    AscendingOnly(rules, k, d.nr);
    OnlyMatch(rules, k, d);
  }

  lemma {:induction false} ContiguousTo(rules: seq<Rule>, n: nat)
    requires Contiguous(rules) && n <= |rules|
    ensures AscendingTo(rules, n)
  {
    if n > 0 {
      assert Total(rules[n - 1]);
      ContiguousTo(rules, n - 1);
    }
  }

  lemma ContiguousIsAscending(rules: seq<Rule>)
    requires Contiguous(rules)
    ensures Ascending(rules)
  {
    ContiguousTo(rules, |rules|);
  }

  lemma {:induction false} TotalDecides(ms: seq<Mapping>, d: Data)
    requires HasCatchAll(ms)
    ensures FirstMapping(ms, d).Some?
  {
    if !MappingHolds(ms[0], d) {
      assert ms[1..][|ms| - 2] == ms[|ms| - 1];
      TotalDecides(ms[1..], d);
    }
  }

  /** A partition decides every system call, by the one rule that covers its number. */
  lemma {:induction false} PartitionDecides(rules: seq<Rule>, k: nat, d: Data)
    requires Partition(rules) && k < |rules| && rules[k].Covers(d.nr)
    ensures FirstMatch(rules, d) == RuleAction(rules[k], d) && RuleAction(rules[k], d).Some?
  {
    ContiguousIsAscending(rules);
    AscendingMatch(rules, k, d);
    assert Total(rules[k]);
    if rules[k].IsConditional() { TotalDecides(rules[k].exprs, d); }
  }

  /** Some rule of a partition covers the number. */
  lemma CoveringRule(rules: seq<Rule>, nr: u32) returns (k: nat)
    requires Partition(rules)
    ensures k < |rules| && rules[k].Covers(nr)
  {
    k := 0;
    while rules[k].last < nr
      invariant k < |rules| && rules[k].first <= nr
    {
      k := k + 1;
    }
  }

  // ----- sorting by number and priority keeps the meaning -----

  /** The comparison function handed to qsort: number first, then priority. */
  predicate Before(a: Rule, b: Rule) {
    a.first < b.first || (a.first == b.first && a.priority <= b.priority)
  }

  predicate SortedRules(s: seq<Rule>) {
    forall i, j :: 0 <= i < j < |s| ==> Before(s[i], s[j])
  }

  /** Priorities are handed out in insertion order. */
  predicate PrioritiesIncrease(s: seq<Rule>) {
    forall i, j :: 0 <= i < j < |s| ==> s[i].priority < s[j].priority
  }

  /** The rules for one system call. */
  function ForNr(s: seq<Rule>, nr: u32): seq<Rule> {
    if s == [] then []
    else ForNr(s[..|s| - 1], nr) + if s[|s| - 1].first == nr then [s[|s| - 1]] else []
  }

  lemma {:induction false} ForNrSelects(s: seq<Rule>, nr: u32)
    ensures forall x :: x in ForNr(s, nr) ==> x in s && x.first == nr
    ensures forall x :: multiset(ForNr(s, nr))[x] == if x.first == nr then multiset(s)[x] else 0
  {
    if s != [] {
      ForNrSelects(s[..|s| - 1], nr);
      assert s == s[..|s| - 1] + [s[|s| - 1]];
    }
  }

  lemma {:induction false} ForNrIncreases(s: seq<Rule>, nr: u32)
    requires forall i, j :: 0 <= i < j < |s| && s[i].first == s[j].first ==> s[i].priority < s[j].priority
    ensures PrioritiesIncrease(ForNr(s, nr))
  {
    if s != [] {
      var init := s[..|s| - 1];
      ForNrIncreases(init, nr);
      ForNrSelects(init, nr);
      forall x | x in ForNr(init, nr) && s[|s| - 1].first == nr ensures x.priority < s[|s| - 1].priority {
        var i :| 0 <= i < |init| && init[i] == x;
        assert s[i] == x;
      }
    }
  }

  lemma {:induction false} ForNrMatches(s: seq<Rule>, d: Data)
    requires forall x :: x in s ==> x.first == x.last
    ensures FirstMatch(s, d) == FirstMatch(ForNr(s, d.nr), d)
  {
    if s != [] {
      var init, x := s[..|s| - 1], s[|s| - 1];
      ForNrMatches(init, d);
      FirstMatchAppend(ForNr(init, d.nr), if x.first == d.nr then [x] else [], d);
      FirstMatchSingle(x, d);
    }
  }

  lemma LastsAgree(a: seq<Rule>, b: seq<Rule>)
    requires a != [] && b != [] && multiset(a) == multiset(b)
    requires PrioritiesIncrease(a) && PrioritiesIncrease(b)
    ensures a[|a| - 1] == b[|b| - 1]
  {
    assert a[|a| - 1] in multiset(b) && b[|b| - 1] in multiset(a);
    var i :| 0 <= i < |b| && b[i] == a[|a| - 1];
    var j :| 0 <= j < |a| && a[j] == b[|b| - 1];
  }

  lemma SplitLast(a: seq<Rule>)
    requires a != []
    ensures multiset(a[..|a| - 1]) == multiset(a) - multiset{a[|a| - 1]}
    ensures a == a[..|a| - 1] + [a[|a| - 1]]
  {
    assert a == a[..|a| - 1] + [a[|a| - 1]];
  }

  lemma SameSize(a: seq<Rule>, b: seq<Rule>)
    requires multiset(a) == multiset(b)
    ensures |a| == |b|
  {
    assert |multiset(a)| == |a| && |multiset(b)| == |b|;
  }

  /** Two lists with the same elements in order of increasing priority are equal. */
  lemma {:induction false} SameIncreasing(a: seq<Rule>, b: seq<Rule>)
    requires multiset(a) == multiset(b) && PrioritiesIncrease(a) && PrioritiesIncrease(b)
    ensures a == b
  {
    SameSize(a, b);
    if a != [] {
      LastsAgree(a, b);
      SplitLast(a);
      SplitLast(b);
      IncreasingInit(a);
      IncreasingInit(b);
      SameIncreasing(a[..|a| - 1], b[..|b| - 1]);
    }
  }

  lemma IncreasingInit(a: seq<Rule>)
    requires a != [] && PrioritiesIncrease(a)
    ensures PrioritiesIncrease(a[..|a| - 1])
  {
  }

  /** Any reordering that the comparison function accepts as sorted decides the same. */
  lemma {:induction false} SortKeepsMeaning(s: seq<Rule>, t: seq<Rule>, d: Data)
    requires multiset(s) == multiset(t) && SortedRules(t) && PrioritiesIncrease(s)
    requires forall x :: x in s ==> x.first == x.last
    ensures FirstMatch(t, d) == FirstMatch(s, d)
  {
    forall x | x in t ensures x.first == x.last {
      assert x in multiset(t);
    }
    ForNrMatches(s, d);
    ForNrMatches(t, d);
    SortKeepsOrder(s, t, d.nr);
  }

  lemma {:induction false} SortKeepsOrder(s: seq<Rule>, t: seq<Rule>, nr: u32)
    requires multiset(s) == multiset(t) && SortedRules(t) && PrioritiesIncrease(s)
    ensures ForNr(t, nr) == ForNr(s, nr)
  {
    ForNrSelects(s, nr);
    ForNrSelects(t, nr);
    assert multiset(ForNr(s, nr)) == multiset(ForNr(t, nr));
    ForNrIncreases(s, nr);
    SortedPrioritiesIncrease(s, t);
    ForNrIncreases(t, nr);
    SameIncreasing(ForNr(s, nr), ForNr(t, nr));
  }

  /** No priority occurs twice, so sorted neighbours with equal numbers have increasing ones. */
  lemma SortedPrioritiesIncrease(s: seq<Rule>, t: seq<Rule>)
    requires multiset(s) == multiset(t) && SortedRules(t) && PrioritiesIncrease(s)
    ensures forall i, j :: 0 <= i < j < |t| && t[i].first == t[j].first ==> t[i].priority < t[j].priority
  {
    forall i, j | 0 <= i < j < |t| ensures t[i].priority != t[j].priority {
      assert t[i] in multiset(t) && t[j] in multiset(t);
      var k :| 0 <= k < |s| && s[k] == t[i];
      var l :| 0 <= l < |s| && s[l] == t[j];
      OncePerPriority(s, t[i]);
      if t[i] == t[j] { TwiceInMultiset(t, i, j); }
    }
  }

  lemma {:induction false} OncePerPriority(s: seq<Rule>, x: Rule)
    requires PrioritiesIncrease(s)
    ensures multiset(s)[x] <= 1
  {
    if s != [] {
      var init := s[..|s| - 1];
      OncePerPriority(init, x);
      assert s == init + [s[|s| - 1]];
      forall k | 0 <= k < |init| ensures init[k] != s[|s| - 1] { assert s[k] == init[k]; }
    }
  }

  lemma TwiceInMultiset(t: seq<Rule>, i: nat, j: nat)
    requires i < j < |t| && t[i] == t[j]
    ensures multiset(t)[t[i]] >= 2
  {
    assert t == t[..j] + [t[j]] + t[j + 1..];
    assert t[..j][i] == t[i];
    assert t[i] in multiset(t[..j]);
  }
}
