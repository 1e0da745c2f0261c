/** Policies as written: action blocks and uses of other policies, and what they decide. */
module Policy {
  import opened Words
  import opened Sets
  import opened Actions
  import opened Bpf
  import opened Expression

  /** A system call, optionally with a condition on its arguments. */
  datatype Filter = Filter(nr: u32, expr: Option<BoolExpr>)

  datatype Entry =
    | Block(action: int, filters: seq<Filter>)
    | Use(policy: nat)

  type Entries = seq<Entry>

  /** A single rule in a flat list of rules. */
  datatype SourceRule = SourceRule(filter: Filter, action: int)

  /** Which meaning comparisons have: the documented 64-bit one or the compiled one. */
  datatype Meaning = Documented | Compiled

  predicate Satisfied(e: BoolExpr, d: Data, m: Meaning) {
    if m.Documented? then Holds64(e, d) else Holds(Simplify(e), d)
  }

  predicate Matches(f: Filter, d: Data, m: Meaning) {
    f.nr == d.nr && (f.expr.None? || Satisfied(f.expr.value, d, m))
  }

  function OrElse(a: Option<int>, b: Option<int>): Option<int> {
    if a.Some? then a else b
  }

  /** The action of the first rule that matches. */
  function FirstSource(rules: seq<SourceRule>, d: Data, m: Meaning): Option<int> {
    if rules == [] then None
    else
      var last := rules[|rules| - 1];
      OrElse(FirstSource(rules[..|rules| - 1], d, m),
             if Matches(last.filter, d, m) then Some(last.action) else None)
  }

  lemma {:induction false} FirstSourceAppend(a: seq<SourceRule>, b: seq<SourceRule>, d: Data, m: Meaning)
    ensures FirstSource(a + b, d, m) == OrElse(FirstSource(a, d, m), FirstSource(b, d, m))
    decreases |b|
  {
    if b == [] {
      assert a + b == a;
    } else {
      assert (a + b)[..|a + b| - 1] == a + b[..|b| - 1];
      FirstSourceAppend(a, b[..|b| - 1], d, m);
    }
  }

  function BlockRules(action: int, filters: seq<Filter>): seq<SourceRule> {
    seq(|filters|, i requires 0 <= i < |filters| => SourceRule(filters[i], action))
  }

  predicate ActionsOk(rules: seq<SourceRule>) {
    forall k :: 0 <= k < |rules| ==> ValidAction(rules[k].action)
  }

  /** Uses refer to existing policies, and actions are ones the grammar can produce. */
  predicate EntriesOk(es: Entries, n: nat) {
    forall e :: e in es ==> if e.Use? then e.policy < n else ValidAction(e.action)
  }

  predicate PoliciesOk(ps: seq<Entries>) {
    forall i :: 0 <= i < |ps| ==> EntriesOk(ps[i], |ps|)
  }

  /** The parser looks a used policy up among the policies already defined, so every policy
      uses earlier ones only. */
  predicate DefinedBeforeUse(ps: seq<Entries>) {
    forall i :: 0 <= i < |ps| ==> EntriesOk(ps[i], i)
  }

  // ----- the documented meaning of USE: the body pasted in its place -----

  function Paste(ps: seq<Entries>, es: Entries, n: nat): seq<SourceRule>
    requires n <= |ps| && DefinedBeforeUse(ps) && EntriesOk(es, n)
    decreases n, |es|
  {
    if es == [] then []
    else
      var rest := Paste(ps, es[1..], n);
      match es[0]
      case Block(action, filters) => BlockRules(action, filters) + rest
      case Use(p) => Paste(ps, ps[p], p) + rest
  }

  // ----- what the compiler does: each policy is expanded once -----

  /** Using one more of n policies leaves fewer to be used. */
  lemma UsedUp(n: nat, used: set<nat>, more: set<nat>, p: nat)
    requires p < n && p !in used && used + {p} <= more
    ensures |Interval(0, n) - more| < |Interval(0, n) - used|
  {
    var left, before := Interval(0, n) - more, Interval(0, n) - used;
    assert before == left + (before - left) && p in before - left;
  }

  /** The rules of the entries, leaving out policies already used, and the policies used
      afterwards. It is defined for every graph of uses, cyclic ones included. */
  function Expand(ps: seq<Entries>, es: Entries, used: set<nat>): (r: (seq<SourceRule>, set<nat>))
    requires PoliciesOk(ps) && EntriesOk(es, |ps|)
    requires forall i :: i in used ==> i < |ps|
    ensures used <= r.1 && forall i :: i in r.1 ==> i < |ps|
    decreases |Interval(0, |ps|) - used|, |es|
  {
    if es == [] then ([], used)
    else
      match es[0]
      case Block(action, filters) =>
        var (rules, used') := Expand(ps, es[1..], used);
        (BlockRules(action, filters) + rules, used')
      case Use(p) =>
        if p in used then Expand(ps, es[1..], used)
        else
          UsedUp(|ps|, used, used + {p}, p);
          var (rules1, used1) := Expand(ps, ps[p], used + {p});
          UsedUp(|ps|, used, used1, p);
          var (rules2, used2) := Expand(ps, es[1..], used1);
          (rules1 + rules2, used2)
  }

  lemma {:induction false} ExpandedActions(ps: seq<Entries>, es: Entries, used: set<nat>)
    requires PoliciesOk(ps) && EntriesOk(es, |ps|)
    requires forall i :: i in used ==> i < |ps|
    ensures ActionsOk(Expand(ps, es, used).0)
    decreases |Interval(0, |ps|) - used|, |es|
  {
    if es != [] {
      match es[0]
      case Block(_, _) =>
        assert es[0] in es;
        ExpandedActions(ps, es[1..], used);
      case Use(p) =>
        if p in used {
          ExpandedActions(ps, es[1..], used);
        } else {
          UsedUp(|ps|, used, used + {p}, p);
          ExpandedActions(ps, ps[p], used + {p});
          var used1 := Expand(ps, ps[p], used + {p}).1;
          UsedUp(|ps|, used, used1, p);
          ExpandedActions(ps, es[1..], used1);
        }
    }
  }

  /** Everything a finished policy could match, the rules emitted so far match. */
  ghost predicate Covered(ps: seq<Entries>, used: set<nat>, n: nat, acc: seq<SourceRule>, m: Meaning)
    requires n <= |ps| && DefinedBeforeUse(ps)
  {
    forall q, d :: q in used && q < n && FirstSource(acc, d, m).None? ==>
      FirstSource(Paste(ps, ps[q], q), d, m).None?
  }

  /** Expanding each used policy once decides like pasting every used body: a second copy
      could only repeat what the first one already matched. */
  lemma {:induction false} ExpandMeansPaste(ps: seq<Entries>, es: Entries, n: nat, used: set<nat>,
                                            acc: seq<SourceRule>, m: Meaning)
    requires n <= |ps| && DefinedBeforeUse(ps) && EntriesOk(es, n) && PoliciesOk(ps)
    requires EntriesOk(es, |ps|) && forall i :: i in used ==> i < |ps|
    requires Covered(ps, used, n, acc, m)
    ensures var (rules, used') := Expand(ps, es, used);
            && (forall d :: FirstSource(acc + rules, d, m)
                         == OrElse(FirstSource(acc, d, m), FirstSource(Paste(ps, es, n), d, m)))
            && Covered(ps, used', n, acc + rules, m)
            && (forall i :: i in used' ==> i in used || i < n)
    decreases n, |es|
  {
    var (rules, used') := Expand(ps, es, used);
    if es == [] {
      assert acc + rules == acc;
    } else {
      var rest := es[1..];
      match es[0]
      case Block(action, filters) =>
        var block := BlockRules(action, filters);
        CoveredGrows(ps, used, n, acc, block, m);
        ExpandMeansPaste(ps, rest, n, used, acc + block, m);
        assert acc + rules == acc + block + Expand(ps, rest, used).0;
        forall d ensures FirstSource(acc + rules, d, m)
                      == OrElse(FirstSource(acc, d, m), FirstSource(Paste(ps, es, n), d, m))
        {
          FirstSourceAppend(acc, block, d, m);
          FirstSourceAppend(block, Paste(ps, rest, n), d, m);
        }
      case Use(p) =>
        assert es[0] in es;
        if p in used {
          ExpandMeansPaste(ps, rest, n, used, acc, m);
          forall d ensures FirstSource(acc + rules, d, m)
                        == OrElse(FirstSource(acc, d, m), FirstSource(Paste(ps, es, n), d, m))
          {
            FirstSourceAppend(Paste(ps, ps[p], p), Paste(ps, rest, n), d, m);
          }
        } else {
          UseMeansPaste(ps, es, n, used, acc, m);
        }
    }
  }

  lemma CoveredGrows(ps: seq<Entries>, used: set<nat>, n: nat, acc: seq<SourceRule>, more: seq<SourceRule>,
                     m: Meaning)
    requires n <= |ps| && DefinedBeforeUse(ps)
    requires Covered(ps, used, n, acc, m)
    ensures Covered(ps, used, n, acc + more, m)
  {
    forall q, d | q in used && q < n && FirstSource(acc + more, d, m).None?
      ensures FirstSource(Paste(ps, ps[q], q), d, m).None?
    {
      FirstSourceAppend(acc, more, d, m);
    }
  }

  /** The step of ExpandMeansPaste for the first use of a policy. */
  lemma {:induction false} UseMeansPaste(ps: seq<Entries>, es: Entries, n: nat, used: set<nat>,
                                         acc: seq<SourceRule>, m: Meaning)
    requires n <= |ps| && DefinedBeforeUse(ps) && EntriesOk(es, n) && PoliciesOk(ps)
    requires EntriesOk(es, |ps|) && forall i :: i in used ==> i < |ps|
    requires es != [] && es[0].Use? && es[0].policy !in used && es[0].policy < n
    requires Covered(ps, used, n, acc, m)
    ensures var (rules, used') := Expand(ps, es, used);
            && (forall d :: FirstSource(acc + rules, d, m)
                         == OrElse(FirstSource(acc, d, m), FirstSource(Paste(ps, es, n), d, m)))
            && Covered(ps, used', n, acc + rules, m)
            && (forall i :: i in used' ==> i in used || i < n)
    decreases n, |es|, 0
  {
    var p, rest := es[0].policy, es[1..];
    var (rules1, used1) := Expand(ps, ps[p], used + {p});
    assert EntriesOk(ps[p], p);
    ExpandMeansPaste(ps, ps[p], p, used + {p}, acc, m);
    CoveredGrows(ps, used, n, acc, rules1, m);
    forall q, d | q in used1 && q < n && FirstSource(acc + rules1, d, m).None?
      ensures FirstSource(Paste(ps, ps[q], q), d, m).None?
    {
      assert q in used || q == p || q < p;
    }
    ExpandMeansPaste(ps, rest, n, used1, acc + rules1, m);
    var (rules2, used2) := Expand(ps, rest, used1);
    var (rules, used') := Expand(ps, es, used);
    assert rules == rules1 + rules2 && used' == used2;
    assert acc + rules == acc + rules1 + rules2;
    forall d ensures FirstSource(acc + rules, d, m)
                  == OrElse(FirstSource(acc, d, m), FirstSource(Paste(ps, es, n), d, m))
    {
      FirstSourceAppend(Paste(ps, ps[p], p), Paste(ps, rest, n), d, m);
    }
  }

  /** USE behaves as if the used body was pasted in its place. */
  lemma {:induction false} UseIsPaste(ps: seq<Entries>, main: Entries, d: Data, m: Meaning)
    requires DefinedBeforeUse(ps) && PoliciesOk(ps) && EntriesOk(main, |ps|)
    ensures FirstSource(Expand(ps, main, {}).0, d, m) == FirstSource(Paste(ps, main, |ps|), d, m)
  {
    ExpandMeansPaste(ps, main, |ps|, {}, [], m);
    assert [] + Expand(ps, main, {}).0 == Expand(ps, main, {}).0;
  }
}
