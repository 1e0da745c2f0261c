/** The growing array of range rules: collecting the rules of a policy, and normalising them
    in place into a partition of the system call numbers. */
module RangeRules {
  import opened Words
  import opened Sets
  import opened Actions
  import opened Bpf
  import opened Expression
  import opened Outlines
  import opened Policy
  import opened Rules
  import opened Normalise

  const INITIAL_SIZE: nat := 16

  /** Every rule is as add_filters makes it, and priorities count insertions. */
  predicate Inserted(s: seq<Rule>) {
    forall k :: 0 <= k < |s| ==> RawRule(s[k]) && s[k].priority == k + 1
  }

  /** Insert a rule into a sorted list, after the rules it does not precede. */
  function InsertSorted(s: seq<Rule>, x: Rule): seq<Rule> {
    if s == [] || Before(s[|s| - 1], x) then s + [x]
    else InsertSorted(s[..|s| - 1], x) + [s[|s| - 1]]
  }

  lemma {:induction false} InsertSortedOk(s: seq<Rule>, x: Rule)
    requires SortedRules(s)
    ensures SortedRules(InsertSorted(s, x))
    ensures multiset(InsertSorted(s, x)) == multiset(s) + multiset{x}
  {
    if s != [] && !Before(s[|s| - 1], x) {
      var init, last := s[..|s| - 1], s[|s| - 1];
      InsertSortedOk(init, x);
      assert s == init + [last];
      var t := InsertSorted(init, x);
      forall k | 0 <= k < |t| ensures Before(t[k], last) {
        assert t[k] in multiset(t);
        assert t[k] in multiset(init) || t[k] == x;
      }
    }
  }

  // ----- the rules of a policy, one for each filter -----

  /** The rule of a filter: constant conditions decide at once whether there is a rule, and without
      a condition. */
  function RuleFor(source: SourceRule): Option<Rule> {
    var nr, plain := source.filter.nr, Unconditional(source.filter.nr, source.filter.nr, source.action);
    if source.filter.expr.None? then Some(plain)
    else
      var expr := Simplify(source.filter.expr.value);
      if expr.False? then None
      else if expr.True? then Some(plain)
      else Some(Rule(nr, nr, ACTION_CONDITIONAL, 0, [Mapping(Some(expr), source.action)]))
  }

  /** The rules with those of the source added; priorities count insertions. */
  function Added(rules: seq<Rule>, source: seq<SourceRule>): seq<Rule> {
    if source == [] then rules
    else
      var before, rule := Added(rules, source[..|source| - 1]), RuleFor(source[|source| - 1]);
      if rule.None? then before else before + [rule.value.(priority := |before| + 1)]
  }

  lemma {:induction false} AddedAppend(rules: seq<Rule>, a: seq<SourceRule>, b: seq<SourceRule>)
    ensures Added(rules, a + b) == Added(Added(rules, a), b)
    decreases |b|
  {
    if b == [] {
      assert a + b == a;
    } else {
      assert (a + b)[..|a + b| - 1] == a + b[..|b| - 1];
      AddedAppend(rules, a, b[..|b| - 1]);
    }
  }

  lemma {:induction false} AddedSingle(rules: seq<Rule>, source: SourceRule)
    ensures Added(rules, [source])
         == if RuleFor(source).None? then rules else rules + [RuleFor(source).value.(priority := |rules| + 1)]
  {
    assert [source][..0] == [];
  }

  lemma {:induction false} SingleMapping(m: Mapping, d: Data)
    ensures FirstMapping([m], d) == if MappingHolds(m, d) then Some(m.action) else None
  {
    assert [m][1..] == [];
  }

  lemma RuleForDecides(source: SourceRule, d: Data)
    requires ValidAction(source.action)
    ensures (if RuleFor(source).Some? then Applies(RuleFor(source).value, d) else None)
         == if Matches(source.filter, d, Compiled) then Some(source.action) else None
  {
    if RuleFor(source).Some? && RuleFor(source).value.exprs != [] {
      SingleMapping(RuleFor(source).value.exprs[0], d);
    }
  }

  /** The rules added decide as the source does, after the ones there were before. */
  lemma {:induction false} AddedDecides(rules: seq<Rule>, source: seq<SourceRule>, d: Data)
    requires ActionsOk(source)
    ensures FirstMatch(Added(rules, source), d) == OrElse(FirstMatch(rules, d), FirstSource(source, d, Compiled))
  {
    if source != [] {
      var init, last := source[..|source| - 1], source[|source| - 1];
      AddedDecides(rules, init, d);
      RuleForDecides(last, d);
      if RuleFor(last).Some? {
        FirstMatchSnoc(Added(rules, init), RuleFor(last).value.(priority := |Added(rules, init)| + 1), d);
      }
    }
  }

  lemma RuleForCosts(source: SourceRule, priority: int, limit: Limit)
    requires RuleFor(source).Some?
    ensures RuleCost(RuleFor(source).value.(priority := priority), limit) <= SourceCost(source, limit)
  {
    var ms := RuleFor(source).value.exprs;
    if ms != [] {
      assert ms[1..] == [];
      assert MappingsCost(ms, limit) == MappingCost(ms[0], limit) + MappingsCost([], limit);
    }
  }

  /** They are no more than the source, and cost what its simplified conditions do. */
  lemma {:induction false} AddedCosts(rules: seq<Rule>, source: seq<SourceRule>, limit: Limit)
    ensures |Added(rules, source)| <= |rules| + |source|
    ensures RulesCost(Added(rules, source), limit) <= RulesCost(rules, limit) + SourcesCost(source, limit)
  {
    if source != [] {
      var init, last := source[..|source| - 1], source[|source| - 1];
      AddedCosts(rules, init, limit);
      if RuleFor(last).Some? {
        var x := RuleFor(last).value.(priority := |Added(rules, init)| + 1);
        RulesCostSnoc(Added(rules, init), x, limit);
        RuleForCosts(last, x.priority, limit);
      }
    }
  }

  // ----- the explicit stack of add_policy_rules -----

  /** The policies whose flag is set. */
  ghost function UsedSet(used: seq<bool>): set<nat> {
    set i: nat | i < |used| && used[i]
  }

  predicate StackOk(stack: seq<Entries>, n: nat) {
    forall k :: 0 <= k < |stack| ==> EntriesOk(stack[k], n)
  }

  /** Expanding what is on the stack, top first. */
  ghost function ExpandAll(ps: seq<Entries>, stack: seq<Entries>, used: set<nat>): (seq<SourceRule>, set<nat>)
    requires PoliciesOk(ps) && StackOk(stack, |ps|) && forall i :: i in used ==> i < |ps|
  {
    if stack == [] then ([], used)
    else
      var (rules1, used1) := Expand(ps, stack[|stack| - 1], used);
      var (rules2, used2) := ExpandAll(ps, stack[..|stack| - 1], used1);
      (rules1 + rules2, used2)
  }

  lemma {:induction false} ExpandAllPush(ps: seq<Entries>, stack: seq<Entries>, top: Entries, used: set<nat>)
    requires PoliciesOk(ps) && StackOk(stack, |ps|) && EntriesOk(top, |ps|)
    requires forall i :: i in used ==> i < |ps|
    ensures var (rules1, used1) := Expand(ps, top, used);
            var (rules2, used2) := ExpandAll(ps, stack, used1);
            StackOk(stack + [top], |ps|) && ExpandAll(ps, stack + [top], used) == (rules1 + rules2, used2)
  {
    assert (stack + [top])[..|stack|] == stack;
  }

  lemma {:induction false} ExpandAllBlock(ps: seq<Entries>, stack: seq<Entries>, top: Entries, used: set<nat>)
    requires PoliciesOk(ps) && StackOk(stack, |ps|) && EntriesOk(top, |ps|) && top != [] && top[0].Block?
    requires forall i :: i in used ==> i < |ps|
    ensures StackOk(stack + [top], |ps|) && StackOk(stack + [top[1..]], |ps|)
    ensures var (rules, used') := ExpandAll(ps, stack + [top[1..]], used);
            ExpandAll(ps, stack + [top], used) == (BlockRules(top[0].action, top[0].filters) + rules, used')
  {
    ExpandAllPush(ps, stack, top, used);
    ExpandAllPush(ps, stack, top[1..], used);
    var rules1 := Expand(ps, top[1..], used).0;
    var rules2 := ExpandAll(ps, stack, Expand(ps, top[1..], used).1).0;
    var block := BlockRules(top[0].action, top[0].filters);
    assert (block + rules1) + rules2 == block + (rules1 + rules2);
  }

  lemma {:induction false} ExpandAllSkip(ps: seq<Entries>, stack: seq<Entries>, top: Entries, used: set<nat>)
    requires PoliciesOk(ps) && StackOk(stack, |ps|) && EntriesOk(top, |ps|) && top != [] && top[0].Use?
    requires top[0].policy in used && forall i :: i in used ==> i < |ps|
    ensures StackOk(stack + [top], |ps|) && StackOk(stack + [top[1..]], |ps|)
    ensures ExpandAll(ps, stack + [top], used) == ExpandAll(ps, stack + [top[1..]], used)
  {
    ExpandAllPush(ps, stack, top, used);
    ExpandAllPush(ps, stack, top[1..], used);
  }

  lemma {:induction false} ExpandAllEmpty(ps: seq<Entries>, stack: seq<Entries>, used: set<nat>)
    requires PoliciesOk(ps) && StackOk(stack, |ps|) && forall i :: i in used ==> i < |ps|
    ensures StackOk(stack + [[]], |ps|)
    ensures ExpandAll(ps, stack + [[]], used) == ExpandAll(ps, stack, used)
  {
    ExpandAllPush(ps, stack, [], used);
    assert [] + ExpandAll(ps, stack, used).0 == ExpandAll(ps, stack, used).0;
  }

  /** The first use of a policy: what follows waits on the stack, unless nothing follows. */
  lemma ExpandAllUse(ps: seq<Entries>, stack: seq<Entries>, top: Entries, used: set<nat>)
    requires PoliciesOk(ps) && StackOk(stack, |ps|) && EntriesOk(top, |ps|) && top != [] && top[0].Use?
    requires top[0].policy !in used && forall i :: i in used ==> i < |ps|
    ensures var waiting := if top[1..] == [] then stack else stack + [top[1..]];
            && top[0].policy < |ps|
            && StackOk(stack + [top], |ps|) && StackOk(waiting, |ps|)
            && StackOk(waiting + [ps[top[0].policy]], |ps|)
            && ExpandAll(ps, stack + [top], used)
               == ExpandAll(ps, waiting + [ps[top[0].policy]], used + {top[0].policy})
  {
    var p, rest := top[0].policy, top[1..];
    assert top[0] in top;
    var waiting := if rest == [] then stack else stack + [rest];
    ExpandAllPush(ps, stack, top, used);
    var (rules1, used1) := Expand(ps, ps[p], used + {p});
    ExpandAllPush(ps, stack, rest, used1);
    if rest == [] { ExpandAllEmpty(ps, stack, used1); }
    ExpandAllPush(ps, waiting, ps[p], used + {p});
    var (rules2, used2) := Expand(ps, rest, used1);
    AppendAssociates(rules1, rules2, ExpandAll(ps, stack, used2).0);
  }

  lemma AppendAssociates(a: seq<SourceRule>, b: seq<SourceRule>, c: seq<SourceRule>)
    ensures (a + b) + c == a + (b + c)
  {
  }

  /** The rules added to was so far, with what is on the stack added, are was with the whole policy
      added. */
  ghost predicate Pending(ps: seq<Entries>, main: Entries, was: seq<Rule>, rules: seq<Rule>,
                          stack: seq<Entries>, used: set<nat>)
  {
    && PoliciesOk(ps) && EntriesOk(main, |ps|) && StackOk(stack, |ps|)
    && (forall i :: i in used ==> i < |ps|)
    && ExpandAll(ps, stack, used).1 == Expand(ps, main, {}).1
    && Added(rules, ExpandAll(ps, stack, used).0) == Added(was, Expand(ps, main, {}).0)
  }

  lemma PendingStart(ps: seq<Entries>, main: Entries, was: seq<Rule>)
    requires PoliciesOk(ps) && EntriesOk(main, |ps|)
    ensures Pending(ps, main, was, was, [main], {})
  {
    ExpandAllSingle(ps, main, {});
  }

  lemma {:induction false} ExpandAllSingle(ps: seq<Entries>, main: Entries, used: set<nat>)
    requires PoliciesOk(ps) && EntriesOk(main, |ps|) && forall i :: i in used ==> i < |ps|
    ensures StackOk([main], |ps|) && ExpandAll(ps, [main], used) == Expand(ps, main, used)
  {
    ExpandAllPush(ps, [], main, used);
    var rules := Expand(ps, main, used).0;
    assert [] + [main] == [main] && rules + [] == rules;
  }

  lemma {:induction false} PendingDone(ps: seq<Entries>, main: Entries, was: seq<Rule>, rules: seq<Rule>,
                                       used: set<nat>)
    requires Pending(ps, main, was, rules, [], used)
    ensures used == Expand(ps, main, {}).1 && rules == Added(was, Expand(ps, main, {}).0)
  {
  }

  lemma PendingEnd(ps: seq<Entries>, main: Entries, was: seq<Rule>, rules: seq<Rule>,
                   stack: seq<Entries>, used: set<nat>)
    requires Pending(ps, main, was, rules, stack + [[]], used)
    ensures Pending(ps, main, was, rules, stack, used)
  {
    StackBelow(stack, [], |ps|);
    ExpandAllEmpty(ps, stack, used);
  }

  lemma StackBelow(stack: seq<Entries>, top: Entries, n: nat)
    requires StackOk(stack + [top], n)
    ensures StackOk(stack, n) && EntriesOk(top, n)
  {
    forall k | 0 <= k < |stack| ensures EntriesOk(stack[k], n) { assert (stack + [top])[k] == stack[k]; }
    assert (stack + [top])[|stack|] == top;
  }

  lemma PendingTop(ps: seq<Entries>, main: Entries, was: seq<Rule>, rules: seq<Rule>,
                   stack: seq<Entries>, top: Entries, used: set<nat>)
    requires Pending(ps, main, was, rules, stack + [top], used) && top != []
    ensures if top[0].Use? then top[0].policy < |ps| else ValidAction(top[0].action)
  {
    StackBelow(stack, top, |ps|);
    assert top[0] in top;
  }

  lemma PendingSkip(ps: seq<Entries>, main: Entries, was: seq<Rule>, rules: seq<Rule>,
                    stack: seq<Entries>, top: Entries, used: set<nat>)
    requires Pending(ps, main, was, rules, stack + [top], used)
    requires top != [] && top[0].Use? && top[0].policy in used
    ensures Pending(ps, main, was, rules, stack + [top[1..]], used)
  {
    StackBelow(stack, top, |ps|);
    ExpandAllSkip(ps, stack, top, used);
  }

  lemma PendingUse(ps: seq<Entries>, main: Entries, was: seq<Rule>, rules: seq<Rule>,
                   stack: seq<Entries>, top: Entries, used: set<nat>)
    requires Pending(ps, main, was, rules, stack + [top], used)
    requires top != [] && top[0].Use? && top[0].policy !in used
    ensures top[0].policy < |ps|
    ensures var waiting := if top[1..] == [] then stack else stack + [top[1..]];
            Pending(ps, main, was, rules, waiting + [ps[top[0].policy]], used + {top[0].policy})
  {
    StackBelow(stack, top, |ps|);
    ExpandAllUse(ps, stack, top, used);
  }

  lemma {:induction false} PendingBlock(ps: seq<Entries>, main: Entries, was: seq<Rule>, rules: seq<Rule>,
                                        stack: seq<Entries>, top: Entries, used: set<nat>)
    requires Pending(ps, main, was, rules, stack + [top], used)
    requires top != [] && top[0].Block?
    ensures Pending(ps, main, was, Added(rules, BlockRules(top[0].action, top[0].filters)), stack + [top[1..]], used)
  {
    StackBelow(stack, top, |ps|);
    ExpandAllBlock(ps, stack, top, used);
    AddedAppend(rules, BlockRules(top[0].action, top[0].filters), ExpandAll(ps, stack + [top[1..]], used).0);
  }

  /** A USE entry: skip a policy already used; otherwise mark it and turn to its entries, with
      what follows the USE waiting on the stack. */
  method FollowUse(ps: seq<Entries>, ghost main: Entries, stack0: seq<Entries>, entry0: Entries,
                   used0: seq<bool>, ghost was: seq<Rule>, ghost rules: seq<Rule>)
    returns (stack: seq<Entries>, entry: Entries, used: seq<bool>)
    requires |used0| == |ps| && entry0 != [] && entry0[0].Use?
    requires Pending(ps, main, was, rules, stack0 + [entry0], UsedSet(used0))
    ensures |used| == |ps| && Pending(ps, main, was, rules, stack + [entry], UsedSet(used))
    ensures |Interval(0, |ps|) - UsedSet(used)| < |Interval(0, |ps|) - UsedSet(used0)|
         || (stack == stack0 && used == used0 && entry == entry0[1..])
  {
    ghost var u := UsedSet(used0);
    var p := entry0[0].policy;
    PendingTop(ps, main, was, rules, stack0, entry0, u);
    if used0[p] {
      PendingSkip(ps, main, was, rules, stack0, entry0, u);
      return stack0, entry0[1..], used0;
    }
    PendingUse(ps, main, was, rules, stack0, entry0, u);
    used := used0[p := true];
    assert UsedSet(used) == u + {p};
    UnusedShrinks(|ps|, u, p);
    stack := if entry0[1..] != [] then stack0 + [entry0[1..]] else stack0;
    entry := ps[p];
  }

  lemma {:induction false} UnusedShrinks(n: nat, used: set<nat>, p: nat)
    requires p !in used && p < n
    ensures |Interval(0, n) - (used + {p})| < |Interval(0, n) - used|
  {
    assert Interval(0, n) - used == (Interval(0, n) - (used + {p})) + {p};
  }

  /** How much is waiting on the stack. */
  function Work(stack: seq<Entries>): nat {
    if stack == [] then 0 else Work(stack[..|stack| - 1]) + |stack[|stack| - 1]| + 1
  }

  class RuleArray {
    var data: array<Rule>
    var len: nat

    constructor ()
      ensures Valid() && fresh(data) && Rules() == []
    {
      data := new Rule[INITIAL_SIZE](_ => Unconditional(0, 0, 0));
      len := 0;
    }

    ghost predicate Valid()
      reads this
    {
      len <= data.Length
    }

    ghost function Rules(): seq<Rule>
      requires Valid()
      reads this, data
    {
      data[..len]
    }

    method Put(k: nat, rule: Rule)
      requires Valid() && k < len
      modifies data
      ensures Rules() == old(Rules())[k := rule]
    {
      data[k] := rule;
    }

    /** Overwrite the last of the first j rules. */
    method PutLast(j: nat, rule: Rule)
      requires 0 < j <= data.Length
      modifies data
      ensures data[..j] == old(data[..j])[j - 1 := rule]
      ensures forall k :: j <= k < data.Length ==> data[k] == old(data[k])
    {
      data[j - 1] := rule;
    }

    /** Make room for more rules, moving them to a larger array if need be. */
    method Grow(minGrowth: nat)
      requires Valid()
      modifies this`data
      ensures Valid() && len + minGrowth <= data.Length
      ensures Rules() == old(Rules())
      ensures data == old(data) || fresh(data)
    {
      if len + minGrowth > data.Length {
        var capacity := if data.Length * 2 < len + minGrowth then len + minGrowth else data.Length * 2;
        var newData := new Rule[capacity](_ => Unconditional(0, 0, 0));
        for i := 0 to len
          invariant data == old(data) && newData[..i] == data[..i]
        {
          newData[i] := data[i];
        }
        assert newData[..len] == old(Rules());
        data := newData;
      }
    }

    /** Append a rule; its priority is the number of rules inserted so far. */
    method AddRangeRule(rule: Rule)
      requires Valid()
      modifies this, data
      ensures Valid() && (data == old(data) || fresh(data))
      ensures Rules() == old(Rules()) + [rule.(priority := |old(Rules())| + 1)]
    {
      Grow(1);
      data[len] := rule.(priority := len + 1);
      len := len + 1;
    }

    /** Add the rules of an action block: constant conditions decide at once whether there is
        a rule, and without a condition. */
    method AddFilters(action: int, filters: seq<Filter>)
      requires Valid() && Inserted(Rules()) && ValidAction(action)
      modifies this, data
      ensures Valid() && Inserted(Rules()) && (data == old(data) || fresh(data))
      ensures Rules() == Added(old(Rules()), BlockRules(action, filters))
    {
      ghost var was := Rules();
      for i := 0 to |filters|
        invariant Valid() && Inserted(Rules()) && (data == old(data) || fresh(data))
        invariant Rules() == Added(was, BlockRules(action, filters[..i]))
      {
        AddFilter(action, filters[i]);
        BlockSnoc(action, filters, i);
        AddedAppend(was, BlockRules(action, filters[..i]), [SourceRule(filters[i], action)]);
      }
      assert filters[..|filters|] == filters;
    }

    method AddFilter(action: int, filter: Filter)
      requires Valid() && Inserted(Rules()) && ValidAction(action)
      modifies this, data
      ensures Valid() && Inserted(Rules()) && (data == old(data) || fresh(data))
      ensures Rules() == Added(old(Rules()), [SourceRule(filter, action)])
    {
      AddedSingle(Rules(), SourceRule(filter, action));
      var rule := Unconditional(filter.nr, filter.nr, action);
      if filter.expr.Some? {
        var expr := Simplify(filter.expr.value);
        if expr.False? { return; }
        if !expr.True? {
          SimplifiedIsGenerable(filter.expr.value);
          rule := rule.(action := ACTION_CONDITIONAL,
                        exprs := RuleAddExpr([], Mapping(Some(expr), action)));
          assert rule.exprs == [Mapping(Some(expr), action)];
        }
      }
      AddRangeRule(rule);
    }

    /** Add the rules of a policy. A used policy is expanded once, at its first use; for any
        graph of uses, cyclic ones included, this ends. */
    method AddPolicyRules(ps: seq<Entries>, main: Entries) returns (used: seq<bool>)
      requires Valid() && Inserted(Rules()) && PoliciesOk(ps) && EntriesOk(main, |ps|)
      modifies this, data
      ensures Valid() && Inserted(Rules()) && (data == old(data) || fresh(data))
      ensures |used| == |ps| && UsedSet(used) == Expand(ps, main, {}).1
      ensures Rules() == Added(old(Rules()), Expand(ps, main, {}).0)
    {
      ghost var was := Rules();
      used := seq(|ps|, _ => false);
      assert UsedSet(used) == {};
      var stack: seq<Entries> := [main];
      PendingStart(ps, main, was);
      while stack != []
        invariant Valid() && Inserted(Rules()) && (data == old(data) || fresh(data))
        invariant |used| == |ps| && Pending(ps, main, was, Rules(), stack, UsedSet(used))
        decreases |Interval(0, |ps|) - UsedSet(used)|, Work(stack)
      {
        stack, used := AddChain(ps, main, stack, used, was);
      }
      PendingDone(ps, main, was, Rules(), UsedSet(used));
    }

    /** Follow the list of entries on top of the stack, and the lists it uses, to its end. */
    method AddChain(ps: seq<Entries>, ghost main: Entries, stack0: seq<Entries>,
                    used0: seq<bool>, ghost was: seq<Rule>)
      returns (stack: seq<Entries>, used: seq<bool>)
      requires Valid() && Inserted(Rules()) && |used0| == |ps| && stack0 != []
      requires Pending(ps, main, was, Rules(), stack0, UsedSet(used0))
      modifies this, data
      ensures Valid() && Inserted(Rules()) && (data == old(data) || fresh(data))
      ensures |used| == |ps| && Pending(ps, main, was, Rules(), stack, UsedSet(used))
      ensures |Interval(0, |ps|) - UsedSet(used)| < |Interval(0, |ps|) - UsedSet(used0)|
           || (stack == stack0[..|stack0| - 1] && used == used0)
    {
      stack, used := stack0[..|stack0| - 1], used0;
      var entry := stack0[|stack0| - 1];
      assert stack + [entry] == stack0;
      while entry != []
        invariant Valid() && Inserted(Rules()) && (data == old(data) || fresh(data))
        invariant |used| == |ps| && Pending(ps, main, was, Rules(), stack + [entry], UsedSet(used))
        invariant |Interval(0, |ps|) - UsedSet(used)| < |Interval(0, |ps|) - UsedSet(used0)|
               || (stack == stack0[..|stack0| - 1] && used == used0)
        decreases |Interval(0, |ps|) - UsedSet(used)|, |entry|
      {
        PendingTop(ps, main, was, Rules(), stack, entry, UsedSet(used));
        match entry[0] {
          case Use(_) =>
            stack, entry, used := FollowUse(ps, main, stack, entry, used, was, Rules());
          case Block(action, filters) =>
            ghost var rules := Rules();
            AddFilters(action, filters);
            PendingBlock(ps, main, was, rules, stack, entry, UsedSet(used));
            entry := entry[1..];
        }
      }
      PendingEnd(ps, main, was, Rules(), stack, UsedSet(used));
    }

    /** Sort by number and priority. The library's sort is used there; all that matters is that
        the result is a sorted reordering. */
    method SortRangeRules()
      requires Valid()
      modifies data
      ensures SortedRules(Rules()) && multiset(Rules()) == multiset(old(Rules()))
    {
      var sorted := SortedCopy();
      Overwrite(sorted);
    }

    method Overwrite(rules: seq<Rule>)
      requires Valid() && |rules| == len
      modifies data
      ensures Rules() == rules
    {
      for i := 0 to len
        invariant forall k :: 0 <= k < i ==> data[k] == rules[k]
      {
        data[i] := rules[i];
      }
    }

    method SortedCopy() returns (sorted: seq<Rule>)
      requires Valid()
      ensures SortedRules(sorted) && multiset(sorted) == multiset(Rules()) && |sorted| == len
    {
      sorted := [];
      for i := 0 to len
        invariant SortedRules(sorted) && |sorted| == i
        invariant multiset(sorted) == multiset(data[..i])
      {
        assert data[..i + 1] == data[..i] + [data[i]];
        InsertSortedOk(sorted, data[i]);
        sorted := InsertSorted(sorted, data[i]);
        assert |sorted| == |multiset(sorted)| == i + 1;
      }
    }

    /** Merge the sorted rules in place: data[..j] is what the rules read so far have been merged
        into, data[i..] is still to be read. Gaps are closed by stretching a neighbour that has
        the default action, or by a default rule if a slot is free; the others are counted. */
    method CountMissing(default: int) returns (toAdd: nat)
      requires Valid() && len > 0 && SortedRules(Rules()) && ValidAction(default)
      requires forall x :: x in Rules() ==> RawRule(x)
      modifies this`len, data
      ensures Valid() && 0 < len <= old(len)
      ensures Keeps(Rules(), old(Rules()), default)
      ensures toAdd == Missing(Rules())
      ensures Rules()[len - 1].last != MAX_SYSCALL_NR ==> Rules()[len - 1].action != default
    {
      ghost var s := Rules();
      var j;
      j, toAdd := MergeAll(default);
      assert Rules()[..j] == data[..j];
      len := j;
      ghost var out := Rules();
      toAdd := StretchEnds(toAdd, default);
      KeepsStays(s, out, Rules(), default);
    }

    /** The loop of CountMissing. */
    method MergeAll(default: int) returns (j: nat, toAdd: nat)
      requires Valid() && len > 0 && SortedRules(Rules()) && ValidAction(default)
      requires forall x :: x in Rules() ==> RawRule(x)
      modifies data
      ensures 1 <= j <= len && Merged(Rules()[..j], old(Rules()), default) && toAdd == Gaps(Rules()[..j])
    {
      ghost var s := Rules();
      j, toAdd := 1, 0;
      MergingStart(s, default);
      for i := 1 to len
        invariant Merging(Rules(), s, i, j, toAdd, default)
      {
        j, toAdd := MergeNext(i, j, toAdd, default, s);
      }
      assert s[..len] == s;
    }

    /** Read the next rule in place. */
    method MergeNext(i: nat, j0: nat, toAdd0: nat, default: int, ghost s: seq<Rule>)
      returns (j: nat, toAdd: nat)
      requires Valid() && i < len && ValidAction(default)
      requires SortedRules(s) && forall x :: x in s ==> RawRule(x)
      requires Merging(Rules(), s, i, j0, toAdd0, default)
      modifies data
      ensures Merging(Rules(), s, i + 1, j, toAdd, default)
    {
      MergingNext(Rules(), s, i, j0, toAdd0, default);
      assert data[..j0] == Rules()[..j0];
      ghost var rest := Rules()[i + 1..];
      j, toAdd := MergeRule(i, j0, toAdd0, default, s[..i]);
      assert data[..j] == Rules()[..j] && Rules()[i + 1..] == rest;
    }

    /** Read the rule at i, the next one after those in done. */
    method MergeRule(i: nat, j0: nat, toAdd0: nat, default: int, ghost done: seq<Rule>)
      returns (j: nat, toAdd: nat)
      requires Valid() && 1 <= j0 <= i < len && ValidAction(default) && RawRule(data[i])
      requires Merged(data[..j0], done, default) && toAdd0 == Gaps(data[..j0])
      requires ReadUpTo(done, data[j0 - 1].last) && data[j0 - 1].last <= data[i].first
      modifies data
      ensures 1 <= j <= i + 1
      ensures forall k :: i < k < data.Length ==> data[k] == old(data[k])
      ensures Merged(data[..j], done + [old(data[i])], default) && toAdd == Gaps(data[..j])
    {
      j, toAdd := j0, toAdd0;
      var cur, prev := data[i], data[j - 1];
      ghost var out := data[..j];
      if cur.first == prev.last {
        MergeStepSame(out, done, cur, default);
        PutLast(j, MergeSame(prev, cur));
      } else if cur.first == prev.last + 1 && !prev.IsConditional() && prev.action == cur.action {
        MergeStepExtend(out, done, cur, default);
        PutLast(j, prev.(last := cur.last));
      } else {
        j, toAdd := MergeApart(i, j, toAdd, default, done);
      }
    }

    /** The rule at i stays a rule of its own, perhaps after a gap. */
    method MergeApart(i: nat, j0: nat, toAdd0: nat, default: int, ghost done: seq<Rule>)
      returns (j: nat, toAdd: nat)
      requires Valid() && 1 <= j0 <= i < len && ValidAction(default) && RawRule(data[i])
      requires Keeps(data[..j0], done, default) && toAdd0 == Gaps(data[..j0])
      requires ReadUpTo(done, data[j0 - 1].last) && data[j0 - 1].last < data[i].first
      requires Apart(data[j0 - 1], data[i], default)
      modifies data
      ensures 1 <= j <= i + 1
      ensures forall k :: i < k < data.Length ==> data[k] == old(data[k])
      ensures Merged(data[..j], done + [old(data[i])], default) && toAdd == Gaps(data[..j])
    {
      j, toAdd := j0, toAdd0;
      var cur := data[i];
      if cur.first != data[j - 1].last + 1 {
        cur, j, toAdd := CloseGap(i, j, toAdd, default, done);
      }
      j, toAdd := KeepRule(cur, j, toAdd, default, done, data[i]);
    }

    /** Put a rule behind the merged ones. */
    method KeepRule(cur: Rule, j0: nat, toAdd0: nat, default: int, ghost done: seq<Rule>, ghost raw: Rule)
      returns (j: nat, toAdd: nat)
      requires Valid() && 1 <= j0 < data.Length && RawRule(raw) && Stands(cur, raw, default)
      requires Keeps(data[..j0], done, default) && data[j0 - 1].last < cur.first && Apart(data[j0 - 1], cur, default)
      requires ReadUpTo(done, cur.first - 1)
      requires toAdd0 == Gaps(data[..j0]) + if cur.first == data[j0 - 1].last + 1 then 0 else 1
      modifies data
      ensures j == j0 + 1 && toAdd == toAdd0
      ensures forall k :: j <= k < data.Length ==> data[k] == old(data[k])
      ensures Merged(data[..j], done + [raw], default) && toAdd == Gaps(data[..j])
    {
      ghost var out := data[..j0];
      MergeStepAppend(out, done, raw, cur, default);
      GapsSnoc(out, cur);
      data[j0] := cur;
      j, toAdd := j0 + 1, toAdd0;
      assert data[..j] == out + [cur];
    }

    /** There is a gap before the rule read: close it, or count it. */
    method CloseGap(i: nat, j0: nat, toAdd0: nat, default: int, ghost done: seq<Rule>)
      returns (cur: Rule, j: nat, toAdd: nat)
      requires Valid() && 1 <= j0 <= i < len && ValidAction(default) && RawRule(data[i])
      requires Keeps(data[..j0], done, default) && toAdd0 == Gaps(data[..j0])
      requires ReadUpTo(done, data[j0 - 1].last) && data[j0 - 1].last + 1 < data[i].first
      modifies data
      ensures 1 <= j <= i
      ensures forall k :: i <= k < data.Length ==> data[k] == old(data[k])
      ensures Keeps(data[..j], done, default) && data[j - 1].last < cur.first && Apart(data[j - 1], cur, default)
      ensures Stands(cur, data[i], default) && 0 < cur.first && ReadUpTo(done, cur.first - 1)
      ensures toAdd == Gaps(data[..j]) + if cur.first == data[j - 1].last + 1 then 0 else 1
    {
      cur, j, toAdd := data[i], j0, toAdd0;
      var prev := data[j - 1];
      UpToMore(done, prev.last, cur.first - 1);
      assert RuleOk(data[..j0][j0 - 1]);
      if prev.action == default {
        StretchLast(j, cur.first - 1, default, done);
      } else if cur.action == default {
        cur := cur.(first := prev.last + 1);
      } else if j < i {
        PutDefault(j, cur.first - 1, default, done);
        j := j + 1;
      } else {
        toAdd := toAdd + 1;
      }
    }

    /** The last merged rule, a default one, takes the gap. */
    method StretchLast(j: nat, hi: u32, default: int, ghost done: seq<Rule>)
      requires Valid() && 1 <= j <= len && ValidAction(default) && data[j - 1].action == default
      requires Keeps(data[..j], done, default) && ReadUpTo(done, data[j - 1].last)
      requires data[j - 1].last <= hi
      modifies data
      ensures forall k :: j <= k < data.Length ==> data[k] == old(data[k])
      ensures Keeps(data[..j], done, default) && data[j - 1].last == hi && data[j - 1].action == default
      ensures Gaps(data[..j]) == old(Gaps(data[..j]))
    {
      ghost var out := data[..j];
      DefaultReachesUp(out, done, hi, default);
      PutLast(j, data[j - 1].(last := hi));
    }

    /** A default rule in the free slot behind the merged ones takes the gap. */
    method PutDefault(j: nat, hi: u32, default: int, ghost done: seq<Rule>)
      requires Valid() && 1 <= j < len && ValidAction(default)
      requires Keeps(data[..j], done, default) && ReadUpTo(done, data[j - 1].last)
      requires data[j - 1].last < hi
      modifies data
      ensures forall k :: j < k < data.Length ==> data[k] == old(data[k])
      ensures Keeps(data[..j + 1], done, default) && data[j].last == hi && data[j].action == default
      ensures Gaps(data[..j + 1]) == old(Gaps(data[..j]))
    {
      ghost var out := data[..j];
      var gap := data[j].(first := data[j - 1].last + 1, last := hi, action := default, exprs := []);
      DefaultFillsGap(out, done, gap, default);
      GapsSnoc(out, gap);
      data[j] := gap;
      assert data[..j + 1] == out + [gap];
    }

    /** Stretch the first rule down to 0 and the last one up, if they have the default action;
        otherwise count the gap. */
    method StretchEnds(toAdd0: nat, default: int) returns (toAdd: nat)
      requires Valid() && len > 0 && Ascending(Rules()) && ValidAction(default)
      requires toAdd0 == Gaps(Rules())
      modifies data
      ensures Stays(Rules(), old(Rules()), default)
      ensures toAdd == Missing(Rules())
      ensures Rules()[len - 1].last != MAX_SYSCALL_NR ==> Rules()[len - 1].action != default
    {
      ghost var s := Rules();
      toAdd := StretchFirst(toAdd0, default);
      ghost var t := Rules();
      toAdd := StretchTop(toAdd, default);
      StaysBoth(s, t, Rules(), default);
    }

    method StretchTop(toAdd0: nat, default: int) returns (toAdd: nat)
      requires Valid() && len > 0 && Ascending(Rules()) && ValidAction(default)
      requires toAdd0 == Gaps(Rules()) + if Rules()[0].first == 0 then 0 else 1
      modifies data
      ensures Stays(Rules(), old(Rules()), default)
      ensures toAdd == Missing(Rules())
      ensures Rules()[len - 1].last != MAX_SYSCALL_NR ==> Rules()[len - 1].action != default
    {
      toAdd := toAdd0;
      ghost var s := Rules();
      var last := data[len - 1];
      if last.last != MAX_SYSCALL_NR {
        if last.action == default {
          data[len - 1] := last.(last := MAX_SYSCALL_NR);
          DefaultReachesTop(s, default);
          assert Rules() == s[len - 1 := last.(last := MAX_SYSCALL_NR)];
        } else {
          toAdd := toAdd + 1;
        }
      }
    }

    method StretchFirst(toAdd0: nat, default: int) returns (toAdd: nat)
      requires Valid() && len > 0 && Ascending(Rules()) && ValidAction(default)
      requires toAdd0 == Gaps(Rules())
      modifies data
      ensures Stays(Rules(), old(Rules()), default)
      ensures toAdd == Gaps(Rules()) + if Rules()[0].first == 0 then 0 else 1
    {
      toAdd := toAdd0;
      ghost var s := Rules();
      var first := data[0];
      if first.first != 0 {
        if first.action == default {
          data[0] := first.(first := 0);
          DefaultReachesDown(s, default);
          assert Rules() == s[0 := first.(first := 0)];
        } else {
          toAdd := toAdd + 1;
        }
      }
    }

    /** Fill the counted gaps with default rules, moving the rules up from the top down so that
        none is overwritten before it has moved, and give conditional rules a last resort. */
    method AddMissingRules(toAdd0: nat, default: int)
      requires Valid() && len > 0 && Ascending(Rules()) && ValidAction(default)
      requires toAdd0 == Missing(Rules())
      requires Rules()[len - 1].last != MAX_SYSCALL_NR ==> Rules()[len - 1].action != default
      modifies this, data
      ensures Valid() && (data == old(data) || fresh(data)) && len == old(len) + toAdd0
      ensures Completes(Rules(), old(Rules()), default)
    {
      ghost var rules := Rules();
      var oldlen, toAdd := len, toAdd0;
      Grow(toAdd);
      len := oldlen + toAdd;
      assert Rules()[..oldlen] == rules;
      toAdd := PlaceTop(oldlen, toAdd, default, rules);
      toAdd := PlaceDown(oldlen, toAdd, default, rules);
      PlaceBottom(toAdd, default, rules);
    }

    /** Place the rules below, from the last one to the first. */
    method PlaceDown(oldlen: nat, toAdd0: nat, default: int, ghost rules: seq<Rule>) returns (toAdd: nat)
      requires Valid() && 0 < oldlen == |rules| && Ascending(rules) && ValidAction(default)
      requires Placing(Rules(), oldlen, toAdd0, rules, default)
      modifies data
      ensures Placing(Rules(), 0, toAdd, rules, default)
    {
      toAdd := toAdd0;
      for i := oldlen downto 0
        invariant Placing(Rules(), i, toAdd, rules, default)
      {
        toAdd := PlaceNext(i + 1, toAdd, default, i + 1 < oldlen, rules);
      }
    }

    /** The gap above the last rule. */
    method PlaceTop(oldlen: nat, toAdd0: nat, default: int, ghost rules: seq<Rule>) returns (toAdd: nat)
      requires Valid() && 0 < oldlen == |rules| && len == oldlen + toAdd0 && Rules()[..oldlen] == rules
      requires Ascending(rules) && ValidAction(default) && toAdd0 == Missing(rules)
      modifies data
      ensures Placing(Rules(), oldlen, toAdd, rules, default)
    {
      toAdd := toAdd0;
      ghost var all := Rules();
      var last := data[oldlen - 1];
      assert last == all[..oldlen][oldlen - 1] == rules[oldlen - 1];
      if last.last != MAX_SYSCALL_NR {
        var gap := Unconditional(last.last + 1, MAX_SYSCALL_NR, default);
        PlacingTop(all, toAdd, gap, rules, default);
        data[len - 1] := gap;
        toAdd := toAdd - 1;
        assert Rules() == all[len - 1 := gap];
      } else {
        PlacingStart(all, toAdd, rules, default);
      }
    }

    /** Move the rule at i - 1 up to its place, with a default rule above it if there is a gap
        between it and the rule placed before. */
    method PlaceNext(i: nat, toAdd0: nat, default: int, hasPrev: bool, ghost rules: seq<Rule>)
      returns (toAdd: nat)
      requires Valid() && 0 < i <= |rules| && Ascending(rules) && ValidAction(default)
      requires Placing(Rules(), i, toAdd0, rules, default) && hasPrev == (i < |rules|)
      modifies data
      ensures Placing(Rules(), i - 1, toAdd, rules, default)
    {
      toAdd := toAdd0;
      var dst := i - 1 + toAdd;
      PlacingReads(Rules(), i, toAdd, dst, rules, default);
      var cur := data[i - 1];
      if hasPrev && data[dst + 1].first != cur.last + 1 {
        PlaceGap(i, toAdd, dst, cur, default, rules);
        toAdd := toAdd - 1;
      } else {
        PlaceRule(i, toAdd, dst, cur, default, rules);
      }
    }

    /** The rule at i - 1 moves to its place. */
    method PlaceRule(ghost i: nat, ghost toAdd: nat, dst: nat, cur: Rule, default: int, ghost rules: seq<Rule>)
      requires Valid() && 0 < i <= |rules| && Ascending(rules) && ValidAction(default)
      requires Placing(Rules(), i, toAdd, rules, default) && dst == i - 1 + toAdd < len
      requires cur == rules[i - 1] && (i < |rules| ==> rules[i].first == cur.last + 1)
      modifies data
      ensures Placing(Rules(), i - 1, toAdd, rules, default)
    {
      ghost var all := Rules();
      PlacingRule(all, i, toAdd, rules, default);
      Put(dst, WithDefault(cur, default));
      assert Rules() == all[i + toAdd - 1 := WithDefault(cur, default)];
    }

    /** A default rule in the gap above the rule at i - 1, which moves right below it. */
    method PlaceGap(ghost i: nat, ghost toAdd: nat, dst: nat, cur: Rule, default: int, ghost rules: seq<Rule>)
      requires Valid() && 0 < i < |rules| && Ascending(rules) && ValidAction(default)
      requires Placing(Rules(), i, toAdd, rules, default) && dst == i - 1 + toAdd && dst + 1 < len
      requires cur == rules[i - 1] && data[dst + 1].first == rules[i].first != cur.last + 1
      modifies data
      ensures 0 < toAdd && Placing(Rules(), i - 1, toAdd - 1, rules, default)
    {
      ghost var all := Rules();
      GapsLeftBelow(rules, i);
      var gap := data[dst].(first := cur.last + 1, last := data[dst + 1].first - 1, action := default, exprs := []);
      PlacingGap(all, i, toAdd, gap, rules, default);
      Put(dst, gap);
      Put(dst - 1, WithDefault(cur, default));
    }

    /** The gap below the first rule. */
    method PlaceBottom(toAdd: nat, default: int, ghost rules: seq<Rule>)
      requires Valid() && rules != [] && Ascending(rules) && ValidAction(default)
      requires Placing(Rules(), 0, toAdd, rules, default)
      modifies data
      ensures Completes(Rules(), rules, default)
    {
      ghost var all := Rules();
      if toAdd == 1 {
        assert data[1] == all[1..][0];
        var gap := Unconditional(0, data[1].first - 1, default);
        PlacingBottom(all, gap, rules, default);
        data[0] := gap;
        assert Rules() == all[0 := gap];
      } else {
        assert toAdd == 0;
        PlacingEnd(all, rules, default);
      }
    }

    /** Turn the inserted rules into a partition of the system call numbers that says about every
        number what the rules for it say in insertion order, with the default last; and so decides
        every system call as scanning them does. */
    method NormalizeRules(default: int)
      requires Valid() && Inserted(Rules()) && ValidAction(default)
      modifies this, data
      ensures Valid() && (data == old(data) || fresh(data))
      ensures Normalised(Rules(), old(Rules()), default) && len <= 2 * old(len) + 1
      ensures forall d :: FirstMatch(Rules(), d) == Some(Decide(old(Rules()), d, default))
    {
      ghost var s := Rules();
      if len == 0 {
        PutWholeRange(default);
      } else {
        SortRangeRules();
        ghost var t := Rules();
        InsertedSorted(s, t, default);
        var toAdd := CountMissing(default);
        ghost var out := Rules();
        MissingAtMost(out);
        AddMissingRules(toAdd, default);
        KeepsSorted(out, t, s, default);
        CompletesKept(Rules(), out, s, default);
      }
      forall d: Data ensures FirstMatch(Rules(), d) == Some(Decide(s, d, default)) {
        NormalisedDecides(Rules(), s, default, d);
      }
    }

    /** Without any rule, one range has the default action. */
    method PutWholeRange(default: int)
      requires Valid() && len == 0 && ValidAction(default)
      modifies this, data
      ensures Valid() && (data == old(data) || fresh(data))
      ensures Normalised(Rules(), [], default) && len == 1
    {
      AddRangeRule(Unconditional(0, MAX_SYSCALL_NR, default));
      WholeRange(Rules()[0], default);
      assert Rules() == [Rules()[0]];
    }
  }

  /** Sorting inserted rules keeps them raw and keeps what they say together. */
  lemma {:induction false} InsertedSorted(s: seq<Rule>, t: seq<Rule>, default: int)
    requires Inserted(s) && SortedRules(t) && multiset(s) == multiset(t)
    ensures |t| == |s| && (forall x :: x in t ==> RawRule(x)) && CostsUpTo(t, s)
    ensures forall nr: u32 :: ToldOf(t, nr) == ToldOf(s, nr)
  {
    assert |multiset(s)| == |s| && |multiset(t)| == |t|;
    forall x | x in t ensures RawRule(x) {
      assert x in multiset(t);
    }
    forall limit ensures RulesCost(t, limit) <= RulesCost(s, limit) { RulesCostReordered(s, t, limit); }
    forall nr: u32 ensures ToldOf(t, nr) == ToldOf(s, nr) {
      SortKeepsOrder(s, t, nr);
      ToldForNr(s, nr);
      ToldForNr(t, nr);
    }
  }

  lemma {:induction false} KeepsSorted(out: seq<Rule>, t: seq<Rule>, s: seq<Rule>, default: int)
    requires Keeps(out, t, default) && CostsUpTo(t, s) && forall nr: u32 :: ToldOf(t, nr) == ToldOf(s, nr)
    ensures Keeps(out, s, default)
  {
  }

  /** The state of the array while sorted rules are merged: all[..j] is what s[..i] has been
      merged into, with toAdd gaps, and the rules from i on are still there to be read. */
  ghost predicate Merging(all: seq<Rule>, s: seq<Rule>, i: nat, j: nat, toAdd: nat, default: int) {
    && 1 <= j <= i <= |s| == |all| && all[i..] == s[i..]
    && Merged(all[..j], s[..i], default) && toAdd == Gaps(all[..j])
  }

  lemma MergingStart(s: seq<Rule>, default: int)
    requires s != [] && RawRule(s[0])
    ensures Merging(s, s, 1, 1, 0, default)
  {
    assert s[..1] == [s[0]];
    MergeStart(s[0], default);
  }

  lemma MergingNext(all: seq<Rule>, s: seq<Rule>, i: nat, j: nat, toAdd: nat, default: int)
    requires Merging(all, s, i, j, toAdd, default) && i < |s|
    requires SortedRules(s) && forall x :: x in s ==> RawRule(x)
    ensures all[i] == s[i] && RawRule(s[i]) && s[..i + 1] == s[..i] + [s[i]] && s[i + 1..] == all[i + 1..]
    ensures ReadUpTo(s[..i], all[j - 1].last) && all[j - 1].last <= s[i].first
  {
    ReadSorted(s, i);
    assert all[i] == all[i..][0] == s[i..][0] == s[i] && s[i] in s;
    assert s[i + 1..] == s[i..][1..] == all[i..][1..] == all[i + 1..];
    assert all[..j][j - 1].last == s[..i][i - 1].first;
  }

  lemma UpToMore(done: seq<Rule>, nr: u32, more: u32)
    requires ReadUpTo(done, nr) && nr <= more
    ensures ReadUpTo(done, more)
  {
  }

  /** Sorted single-number rules read so far do not speak beyond the last of them. */
  lemma ReadSorted(s: seq<Rule>, i: nat)
    requires SortedRules(s) && 0 < i < |s| && forall x :: x in s ==> RawRule(x)
    ensures ReadUpTo(s[..i], s[i - 1].first) && s[i - 1].first <= s[i].first
  {
    assert Before(s[i - 1], s[i]);
    forall k | 0 <= k < i ensures s[..i][k].first == s[..i][k].last <= s[i - 1].first {
      assert s[k] in s;
      if k < i - 1 { assert Before(s[k], s[i - 1]); }
    }
  }

  lemma BlockSnoc(action: int, filters: seq<Filter>, i: nat)
    requires i < |filters|
    ensures BlockRules(action, filters[..i + 1])
         == BlockRules(action, filters[..i]) + [SourceRule(filters[i], action)]
  {
    var s := BlockRules(action, filters[..i + 1]);
    assert s[..i] == BlockRules(action, filters[..i]);
    assert s[i] == SourceRule(filters[i], action);
  }
}
