/** The dispatch on the system call number: a stack of subtrees that covers the numbers from
    the last one down, merged pairwise while two neighbours are equally tall. */
module Dispatch {
  import opened Words
  import opened Actions
  import opened Bpf
  import opened Rules
  import opened CodeMeaning
  import opened CodeSize
  import opened Branching
  import opened MappingCode

  /** Slots of the stack; enough for every partition of the 2^32 numbers. */
  const STACK_SIZE: nat := 33

  /** Code for the numbers from nr up to the next higher slot. */
  datatype Slot = Slot(level: nat, loc: int, nr: u32)

  // ----- what the slots of the stack mean -----

  /** With the system call number in A, the location has this outcome on d. */
  ghost predicate YieldsAtNr(buf: seq<Instr>, loc: int, d: Data, res: Outcome)
    requires LocOk(buf, loc)
  {
    forall r: Regs :: r.a == d.nr ==> OutcomeAt(buf, loc, r, d) == res
  }

  /** The location decides these numbers as the rules do. */
  ghost predicate SlotMeans(buf: seq<Instr>, loc: int, lo: int, hi: int, rules: seq<Rule>)
    requires LocOk(buf, loc)
  {
    forall d: Data ::
      lo <= d.nr < hi ==> YieldsAtNr(buf, loc, d, CodeOf(FirstMatch(rules, d)))
  }

  /** One test of the number: from the branch at loc, control was meant to continue at next. */
  predicate OneTest(buf: seq<Instr>, loc: int, next: int, nr: u32) {
    && 0 <= loc < |buf| && buf[loc].JmpK? && buf[loc].cond.Jge?
    && ContinuesAt(buf, loc - 1 - (if nr >= buf[loc].k then buf[loc].jt else SecondSkip(AsMeant, buf[loc])), next)
  }

  /** With the number in A, control gets from loc to target within so many tests of it. */
  ghost predicate Leads(buf: seq<Instr>, loc: int, target: int, nr: u32, tests: nat) {
    loc == target
    || (tests > 0 && exists next :: OneTest(buf, loc, next, nr) && Leads(buf, next, target, nr, tests - 1))
  }

  lemma {:induction false} LeadsExtends(buf: seq<Instr>, more: seq<Instr>, loc: int, target: int, nr: u32, tests: nat)
    requires buf <= more && Leads(buf, loc, target, nr, tests)
    ensures Leads(more, loc, target, nr, tests)
  {
    if loc != target {
      var next :| OneTest(buf, loc, next, nr) && Leads(buf, next, target, nr, tests - 1);
      LeadsExtends(buf, more, next, target, nr, tests - 1);
      assert OneTest(more, loc, next, nr);
    }
  }

  lemma {:induction false} LeadsInMore(buf: seq<Instr>, loc: int, target: int, nr: u32, tests: nat, more: nat)
    requires tests <= more && Leads(buf, loc, target, nr, tests)
    ensures Leads(buf, loc, target, nr, more)
  {
    if loc != target {
      var next :| OneTest(buf, loc, next, nr) && Leads(buf, next, target, nr, tests - 1);
      LeadsInMore(buf, next, target, nr, tests - 1, more - 1);
    }
  }

  /** The tests leave the registers alone. */
  lemma {:induction false} LeadsMeans(buf: seq<Instr>, loc: int, target: int, tests: nat, r: Regs, d: Data)
    requires (loc < 0 ==> ValidAction(-loc)) && (target < 0 ==> ValidAction(-target))
    requires Leads(buf, loc, target, r.a, tests)
    ensures OutcomeAt(buf, loc, r, d) == OutcomeAt(buf, target, r, d)
  {
    if loc != target {
      var next :| OneTest(buf, loc, next, r.a) && Leads(buf, next, target, r.a, tests - 1);
      ContinuesAtMeans(AsMeant, buf, loc - 1 - SkipAs(AsMeant, buf[loc], r), next, r, d);
      LeadsMeans(buf, next, target, tests - 1, r, d);
    }
  }

  /** From loc, control finds the code of the rule that covers the number. */
  ghost predicate Finds(buf: seq<Instr>, loc: int, rules: seq<Rule>, codes: seq<int>, nr: u32, tests: nat) {
    exists j :: 0 <= j < |rules| && j < |codes| && rules[j].Covers(nr) && Leads(buf, loc, codes[j], nr, tests)
  }

  ghost predicate SlotFinds(buf: seq<Instr>, loc: int, lo: int, hi: int, rules: seq<Rule>, codes: seq<int>,
                            tests: nat)
  {
    forall nr: u32 :: lo <= nr < hi ==> Finds(buf, loc, rules, codes, nr, tests)
  }

  lemma SlotFindsExtends(buf: seq<Instr>, more: seq<Instr>, loc: int, lo: int, hi: int, rules: seq<Rule>,
                         codes: seq<int>, tests: nat)
    requires buf <= more && SlotFinds(buf, loc, lo, hi, rules, codes, tests)
    ensures SlotFinds(more, loc, lo, hi, rules, codes, tests)
  {
    forall nr: u32 | lo <= nr < hi ensures Finds(more, loc, rules, codes, nr, tests) {
      assert Finds(buf, loc, rules, codes, nr, tests);
      var j :| 0 <= j < |rules| && j < |codes| && rules[j].Covers(nr) && Leads(buf, loc, codes[j], nr, tests);
      LeadsExtends(buf, more, loc, codes[j], nr, tests);
    }
  }

  lemma SlotFindsInMore(buf: seq<Instr>, loc: int, lo: int, hi: int, rules: seq<Rule>, codes: seq<int>,
                        tests: nat, more: nat)
    requires tests <= more && SlotFinds(buf, loc, lo, hi, rules, codes, tests)
    ensures SlotFinds(buf, loc, lo, hi, rules, codes, more)
  {
    forall nr: u32 | lo <= nr < hi ensures Finds(buf, loc, rules, codes, nr, more) {
      assert Finds(buf, loc, rules, codes, nr, tests);
      var j :| 0 <= j < |rules| && j < |codes| && rules[j].Covers(nr) && Leads(buf, loc, codes[j], nr, tests);
      LeadsInMore(buf, loc, codes[j], nr, tests, more);
    }
  }

  /** The code of a rule below the slot does not matter to it. */
  lemma SlotFindsKept(buf: seq<Instr>, loc: int, lo: int, hi: int, rules: seq<Rule>, codes: seq<int>,
                      tests: nat, i: nat, code: int)
    requires i < |rules| == |codes| && rules[i].last < lo && SlotFinds(buf, loc, lo, hi, rules, codes, tests)
    ensures SlotFinds(buf, loc, lo, hi, rules, codes[i := code], tests)
  {
    var changed := codes[i := code];
    forall nr: u32 | lo <= nr < hi ensures Finds(buf, loc, rules, changed, nr, tests) {
      assert Finds(buf, loc, rules, codes, nr, tests);
      var j :| 0 <= j < |rules| && j < |codes| && rules[j].Covers(nr) && Leads(buf, loc, codes[j], nr, tests);
      assert changed[j] == codes[j];
    }
  }

  /** A branch on the number joins two neighbouring intervals. */
  lemma BranchFinds(buf: seq<Instr>, loc: int, low: int, high: int, lo: int, mid: u32, hi: int,
                    rules: seq<Rule>, codes: seq<int>, tests: nat)
    requires SlotFinds(buf, low, lo, mid, rules, codes, tests) && SlotFinds(buf, high, mid, hi, rules, codes, tests)
    requires BranchAt(buf, loc, Jge, Imm(mid), high, low)
    ensures SlotFinds(buf, loc, lo, hi, rules, codes, tests + 1)
  {
    var more := tests + 1;
    forall nr: u32 | lo <= nr < hi ensures Finds(buf, loc, rules, codes, nr, more) {
      var next := if nr >= mid then high else low;
      assert Finds(buf, next, rules, codes, nr, tests);
      var j :| 0 <= j < |rules| && j < |codes| && rules[j].Covers(nr) && Leads(buf, next, codes[j], nr, tests);
      assert OneTest(buf, loc, next, nr);
      assert Leads(buf, loc, codes[j], nr, more);
    }
  }

  /** From rule i on, there is code for each rule. */
  ghost predicate CodesImplement(buf: seq<Instr>, rules: seq<Rule>, codes: seq<int>, i: nat) {
    |codes| == |rules|
    && forall j :: i <= j < |rules| ==> LocOk(buf, codes[j]) && Implements(buf, codes[j], rules[j])
  }

  lemma CodesExtend(buf: seq<Instr>, more: seq<Instr>, rules: seq<Rule>, codes: seq<int>, i: nat)
    requires buf <= more && CodesImplement(buf, rules, codes, i)
    ensures CodesImplement(more, rules, codes, i)
  {
    forall j | i <= j < |rules| ensures LocOk(more, codes[j]) && Implements(more, codes[j], rules[j]) {
      ImplementsExtends(buf, more, codes[j], rules[j]);
    }
  }

  /** Finding the code of the rule that covers the number is deciding it as the rules do. */
  lemma FindingDecides(buf: seq<Instr>, loc: int, rules: seq<Rule>, codes: seq<int>, tests: nat)
    requires LocOk(buf, loc) && Partition(rules) && CodesImplement(buf, rules, codes, 0)
    requires SlotFinds(buf, loc, 0, TWO_32, rules, codes, tests)
    ensures SlotMeans(buf, loc, 0, TWO_32, rules)
  {
    forall d: Data ensures YieldsAtNr(buf, loc, d, CodeOf(FirstMatch(rules, d))) {
      assert Finds(buf, loc, rules, codes, d.nr, tests);
      var j :| 0 <= j < |rules| && j < |codes| && rules[j].Covers(d.nr) && Leads(buf, loc, codes[j], d.nr, tests);
      PartitionDecides(rules, j, d);
      assert Yields(buf, codes[j], d, CodeOf(RuleAction(rules[j], d)));
      forall r: Regs | r.a == d.nr ensures OutcomeAt(buf, loc, r, d) == CodeOf(FirstMatch(rules, d)) {
        LeadsMeans(buf, loc, codes[j], tests, r, d);
      }
    }
  }

  /** One past the last number slot k covers. */
  function Upper(st: seq<Slot>, k: nat): int
    requires k < |st|
  {
    if k == 0 then TWO_32 else st[k - 1].nr
  }

  predicate SlotsDescend(st: seq<Slot>) {
    forall k {:trigger Upper(st, k)} :: 0 <= k < |st| ==> st[k].nr < Upper(st, k)
  }

  /** One of the rules starts at this number. */
  predicate Starts(rules: seq<Rule>, nr: int) {
    exists j :: 0 <= j < |rules| && rules[j].first == nr
  }

  predicate SlotsStart(st: seq<Slot>, rules: seq<Rule>) {
    forall k :: 0 <= k < |st| ==> Starts(rules, st[k].nr)
  }

  predicate SlotLocsOk(buf: seq<Instr>, st: seq<Slot>) {
    forall k :: 0 <= k < |st| ==> LocOk(buf, st[k].loc)
  }

  /** A slot finds the code of its numbers within as many tests as its level says; for the
      topmost slot the number of tests is given. */
  ghost predicate StackFinds(buf: seq<Instr>, st: seq<Slot>, rules: seq<Rule>, codes: seq<int>, top: nat) {
    forall k {:trigger Upper(st, k)} :: 0 <= k < |st| ==>
      SlotFinds(buf, st[k].loc, st[k].nr, Upper(st, k), rules, codes, if k < |st| - 1 then st[k].level else top)
  }

  /** The stack covers the numbers from lo up, and finds the code of each of them. */
  ghost predicate StackCovers(buf: seq<Instr>, st: seq<Slot>, lo: int, rules: seq<Rule>, codes: seq<int>, top: nat) {
    && SlotLocsOk(buf, st) && SlotsDescend(st) && SlotsStart(st, rules) && StackFinds(buf, st, rules, codes, top)
    && lo == if st == [] then TWO_32 else st[|st| - 1].nr
  }

  lemma StackExtends(buf: seq<Instr>, more: seq<Instr>, st: seq<Slot>, lo: int, rules: seq<Rule>,
                     codes: seq<int>, top: nat)
    requires buf <= more && StackCovers(buf, st, lo, rules, codes, top)
    ensures StackCovers(more, st, lo, rules, codes, top)
  {
    forall k | 0 <= k < |st|
      ensures SlotFinds(more, st[k].loc, st[k].nr, Upper(st, k), rules, codes,
                        if k < |st| - 1 then st[k].level else top)
    {
      SlotFindsExtends(buf, more, st[k].loc, st[k].nr, Upper(st, k), rules, codes,
                       if k < |st| - 1 then st[k].level else top);
    }
  }

  // ----- the stack is deep enough, and the dispatch is balanced -----

  /** How many rules start below a number. */
  function Below(rules: seq<Rule>, nr: int): nat {
    if rules == [] then 0
    else Below(rules[..|rules| - 1], nr) + if rules[|rules| - 1].first < nr then 1 else 0
  }

  lemma {:induction false} BelowGrows(rules: seq<Rule>, lo: int, hi: int)
    requires lo <= hi
    ensures Below(rules, lo) <= Below(rules, hi) <= |rules|
  {
    if rules != [] { BelowGrows(rules[..|rules| - 1], lo, hi); }
  }

  /** A rule that starts in an interval is counted there. */
  lemma {:induction false} BelowStrict(rules: seq<Rule>, lo: int, hi: int, i: nat)
    requires i < |rules| && lo <= rules[i].first < hi
    ensures Below(rules, lo) < Below(rules, hi)
  {
    var init := rules[..|rules| - 1];
    if i < |rules| - 1 { BelowStrict(init, lo, hi, i); } else { BelowGrows(init, lo, hi); }
  }

  lemma {:induction false} FirstAtLeast(rules: seq<Rule>, k: nat)
    requires Contiguous(rules) && k < |rules|
    ensures rules[k].first >= k
  {
    if k > 0 {
      FirstAtLeast(rules, k - 1);
      assert Total(rules[k - 1]);
    }
  }

  /** There are no more ranges than numbers. */
  lemma PartitionSize(rules: seq<Rule>)
    requires Partition(rules)
    ensures |rules| <= TWO_32
  {
    FirstAtLeast(rules, |rules| - 1);
  }

  /** A slot of level n covers at least 2^n rules. */
  predicate WideEnough(st: seq<Slot>, rules: seq<Rule>) {
    forall k {:trigger Upper(st, k)} :: 0 <= k < |st| ==>
      Below(rules, Upper(st, k)) - Below(rules, st[k].nr) >= Pow2(st[k].level)
  }

  /** The levels of the first n slots decrease strictly. */
  predicate LevelsDecrease(st: seq<Slot>, n: int) {
    forall j, k :: 0 <= j < k < |st| && k < n ==> st[j].level > st[k].level
  }

  /** Between two rules, only the last two slots may be equally tall. */
  predicate Levelled(st: seq<Slot>, rules: seq<Rule>) {
    && WideEnough(st, rules) && LevelsDecrease(st, |st| - 1)
    && (|st| >= 2 ==> st[|st| - 2].level >= st[|st| - 1].level)
  }

  lemma {:induction false} LevelsAbove(st: seq<Slot>, k: nat)
    requires LevelsDecrease(st, |st|) && k < |st|
    ensures st[0].level >= st[k].level + k
  {
    if k > 0 { LevelsAbove(st, k - 1); }
  }

  lemma {:induction false} Pow2Grows(a: nat, b: nat)
    requires a <= b
    ensures Pow2(a) <= Pow2(b)
    decreases b
  {
    if a < b { Pow2Grows(a, b - 1); }
  }

  /** With a second slot, the first one leaves out at least one rule. */
  lemma FirstSlotWidth(st: seq<Slot>, rules: seq<Rule>)
    requires st != [] && WideEnough(st, rules)
    ensures Pow2(st[0].level) + (if |st| >= 2 then 1 else 0) <= |rules|
  {
    BelowGrows(rules, st[0].nr, Upper(st, 0));
    assert Below(rules, Upper(st, 0)) - Below(rules, st[0].nr) >= Pow2(st[0].level);
    if |st| >= 2 {
      assert Below(rules, Upper(st, 1)) - Below(rules, st[1].nr) >= Pow2(st[1].level);
      Pow2Grows(0, st[1].level);
    }
  }

  lemma TreeIsBalanced(st: seq<Slot>, rules: seq<Rule>, tests: nat)
    requires st != [] && WideEnough(st, rules)
    requires tests <= st[0].level + if |st| >= 2 then 1 else 0
    ensures tests == 0 || Pow2(tests - 1) < |rules|
  {
    FirstSlotWidth(st, rules);
    if tests > 0 {
      if |st| >= 2 {
        Pow2Grows(tests - 1, st[0].level);
      } else {
        Pow2Grows(0, tests - 1);
        Pow2Grows(tests, st[0].level);
      }
    }
  }

  /** Strictly decreasing levels need 2^32 rules for the first slot alone once there are 33
      of them, so there is always room for one more. */
  lemma RoomForSlot(st: seq<Slot>, rules: seq<Rule>)
    requires Partition(rules) && WideEnough(st, rules) && LevelsDecrease(st, |st|)
    ensures |st| <= 32 < STACK_SIZE
  {
    if |st| >= 2 {
      FirstSlotWidth(st, rules);
      PartitionSize(rules);
      PowersOfTwo();
      if st[0].level >= 32 { Pow2Grows(32, st[0].level); }
      LevelsAbove(st, |st| - 1);
    }
  }

  /** Neighbouring slots have different code, so joining them takes a branch. */
  ghost predicate NeighboursDiffer(st: seq<Slot>) {
    forall j, k :: 0 <= j < k < |st| && k == j + 1 ==> st[j].loc != st[k].loc
  }

  function TopLevel(st: seq<Slot>): nat {
    if st == [] then 0 else st[|st| - 1].level
  }

  /** What holds of the stack between two rules. */
  ghost predicate StackReady(buf: seq<Instr>, st: seq<Slot>, lo: int, rules: seq<Rule>, codes: seq<int>) {
    StackCovers(buf, st, lo, rules, codes, TopLevel(st)) && Levelled(st, rules) && NeighboursDiffer(st)
  }

  /** The two topmost slots have become one. */
  predicate IsJoin(st: seq<Slot>, joined: seq<Slot>, growth: nat)
    requires |st| >= 2
  {
    var n := |st|;
    && |joined| == n - 1
    && (forall k :: 0 <= k < n - 2 ==> joined[k] == st[k])
    && joined[n - 2].nr == st[n - 1].nr
    && joined[n - 2].level == st[n - 2].level + growth
  }

  lemma JoinUpper(st: seq<Slot>, joined: seq<Slot>, growth: nat, k: nat)
    requires |st| >= 2 && IsJoin(st, joined, growth) && k < |joined|
    ensures Upper(joined, k) == Upper(st, k)
  {
    if k > 0 { assert joined[k - 1] == st[k - 1]; }
  }

  /** A branch on the number joins the two topmost slots. */
  lemma JoinCovers(buf: seq<Instr>, st: seq<Slot>, joined: seq<Slot>, growth: nat, loc: int, rules: seq<Rule>,
                   codes: seq<int>, top: nat)
    requires |st| >= 2 && StackCovers(buf, st, st[|st| - 1].nr, rules, codes, top)
    requires IsJoin(st, joined, growth) && joined[|st| - 2].loc == loc && LocOk(buf, loc)
    requires BranchAt(buf, loc, Jge, Imm(st[|st| - 2].nr), st[|st| - 2].loc, st[|st| - 1].loc)
    ensures StackCovers(buf, joined, st[|st| - 1].nr, rules, codes, Max(st[|st| - 2].level, top) + 1)
  {
    var n, tests := |st|, Max(st[|st| - 2].level, top);
    var high, low := st[n - 2], st[n - 1];
    assert Upper(st, n - 1) == high.nr;
    SlotFindsInMore(buf, low.loc, low.nr, high.nr, rules, codes, top, tests);
    SlotFindsInMore(buf, high.loc, high.nr, Upper(st, n - 2), rules, codes, high.level, tests);
    BranchFinds(buf, loc, low.loc, high.loc, low.nr, high.nr, Upper(st, n - 2), rules, codes, tests);
    forall k | 0 <= k < n - 1
      ensures joined[k].nr < Upper(joined, k) && LocOk(buf, joined[k].loc) && Starts(rules, joined[k].nr)
      ensures SlotFinds(buf, joined[k].loc, joined[k].nr, Upper(joined, k), rules, codes,
                        if k < n - 2 then joined[k].level else tests + 1)
    {
      JoinUpper(st, joined, growth, k);
      if k < n - 2 { assert joined[k] == st[k]; }
    }
  }

  lemma JoinDiffers(b: seq<Instr>, st: seq<Slot>, joined: seq<Slot>, loc: int)
    requires |st| >= 2 && NeighboursDiffer(st) && SlotLocsOk(b, st) && |b| <= loc
    requires |joined| == |st| - 1 && joined[..|st| - 2] == st[..|st| - 2] && joined[|st| - 2].loc == loc
    ensures NeighboursDiffer(joined)
  {
    forall j, k | 0 <= j < k < |joined| && k == j + 1 ensures joined[j].loc != joined[k].loc {
      assert joined[j] == joined[..|st| - 2][j] == st[j];
      if k < |st| - 2 { assert joined[k] == joined[..|st| - 2][k] == st[k]; }
    }
  }

  /** Joining two equally tall slots keeps the stack levelled. */
  lemma JoinLevels(st: seq<Slot>, joined: seq<Slot>, rules: seq<Rule>)
    requires Levelled(st, rules) && |st| >= 2
    requires st[|st| - 2].level == st[|st| - 1].level && IsJoin(st, joined, 1)
    ensures Levelled(joined, rules)
  {
    forall k | 0 <= k < |joined|
      ensures Below(rules, Upper(joined, k)) - Below(rules, joined[k].nr) >= Pow2(joined[k].level)
    {
      if k < |st| - 2 { KeptWidth(st, joined, rules, k); } else { JoinWidth(st, joined, rules); }
    }
    JoinDecreases(st, joined);
  }

  /** A slot below the two joined ones. */
  lemma {:induction false} KeptWidth(st: seq<Slot>, joined: seq<Slot>, rules: seq<Rule>, k: nat)
    requires WideEnough(st, rules) && |st| >= 2 && IsJoin(st, joined, 1) && k < |st| - 2
    ensures Below(rules, Upper(joined, k)) - Below(rules, joined[k].nr) >= Pow2(joined[k].level)
  {
    JoinUpper(st, joined, 1, k);
  }

  /** The joined slot covers the rules of both. */
  lemma {:induction false} JoinWidth(st: seq<Slot>, joined: seq<Slot>, rules: seq<Rule>)
    requires WideEnough(st, rules) && |st| >= 2
    requires st[|st| - 2].level == st[|st| - 1].level && IsJoin(st, joined, 1)
    ensures Below(rules, Upper(joined, |st| - 2)) - Below(rules, joined[|st| - 2].nr) >= Pow2(joined[|st| - 2].level)
  {
    var n := |st|;
    JoinUpper(st, joined, 1, n - 2);
    assert Upper(st, n - 1) == st[n - 2].nr;
    assert Pow2(joined[n - 2].level) == 2 * Pow2(st[n - 2].level);
  }

  lemma JoinDecreases(st: seq<Slot>, joined: seq<Slot>)
    requires |st| >= 2 && LevelsDecrease(st, |st| - 1) && IsJoin(st, joined, 1)
    requires st[|st| - 2].level == st[|st| - 1].level
    ensures LevelsDecrease(joined, |joined| - 1)
    ensures |joined| >= 2 ==> joined[|joined| - 2].level >= joined[|joined| - 1].level
  {
  }

  /** The last joins keep the levels, and so the order. */
  lemma LastJoinLevels(st: seq<Slot>, joined: seq<Slot>)
    requires |st| >= 2 && LevelsDecrease(st, |st| - 1) && IsJoin(st, joined, 0)
    ensures LevelsDecrease(joined, |joined| - 1) && joined[0].level == st[0].level
    ensures |joined| >= 2 ==> st[|st| - 2].level < joined[|joined| - 2].level
  {
    if |joined| >= 2 { assert joined[|st| - 3] == st[|st| - 3]; }
  }

  lemma UpperPush(st: seq<Slot>, x: Slot, k: nat)
    requires k <= |st|
    ensures Upper(st + [x], k) == if k < |st| then Upper(st, k) else if st == [] then TWO_32 else st[|st| - 1].nr
  {
  }

  lemma {:induction false} SlotsAbove(st: seq<Slot>, k: nat)
    requires SlotsDescend(st) && k < |st|
    ensures st[|st| - 1].nr <= st[k].nr
    decreases |st| - k
  {
    if k < |st| - 1 {
      SlotsAbove(st, k + 1);
      assert st[k + 1].nr < Upper(st, k + 1);
    }
  }

  /** The slots above rule i find their code whatever the code of rule i is. */
  lemma StackKept(buf: seq<Instr>, st: seq<Slot>, rules: seq<Rule>, codes: seq<int>, top: nat, i: nat, code: int)
    requires i < |rules| == |codes| && StackCovers(buf, st, rules[i].last + 1, rules, codes, top)
    ensures StackCovers(buf, st, rules[i].last + 1, rules, codes[i := code], top)
  {
    forall k | 0 <= k < |st|
      ensures SlotFinds(buf, st[k].loc, st[k].nr, Upper(st, k), rules, codes[i := code],
                        if k < |st| - 1 then st[k].level else top)
    {
      SlotsAbove(st, k);
      SlotFindsKept(buf, st[k].loc, st[k].nr, Upper(st, k), rules, codes,
                    if k < |st| - 1 then st[k].level else top, i, code);
    }
  }

  /** The code of a rule is found at once from itself. */
  lemma RuleFound(buf: seq<Instr>, rules: seq<Rule>, codes: seq<int>, i: nat, tests: nat)
    requires i < |rules| == |codes|
    ensures SlotFinds(buf, codes[i], rules[i].first, rules[i].last + 1, rules, codes, tests)
  {
    forall nr: u32 | rules[i].first <= nr < rules[i].last + 1 ensures Finds(buf, codes[i], rules, codes, nr, tests) {
      assert rules[i].Covers(nr) && Leads(buf, codes[i], codes[i], nr, tests);
    }
  }

  lemma PushCovers(buf: seq<Instr>, st: seq<Slot>, x: Slot, hi: int, rules: seq<Rule>, codes: seq<int>)
    requires StackCovers(buf, st, hi, rules, codes, TopLevel(st)) && LocOk(buf, x.loc) && x.nr < hi && x.level == 0
    requires SlotFinds(buf, x.loc, x.nr, hi, rules, codes, 0) && Starts(rules, x.nr)
    ensures StackCovers(buf, st + [x], x.nr, rules, codes, 0)
  {
    var pushed := st + [x];
    forall k | 0 <= k < |pushed|
      ensures pushed[k].nr < Upper(pushed, k) && Starts(rules, pushed[k].nr)
      ensures LocOk(buf, pushed[k].loc)
      ensures SlotFinds(buf, pushed[k].loc, pushed[k].nr, Upper(pushed, k), rules, codes, pushed[k].level)
    {
      UpperPush(st, x, k);
    }
  }

  lemma PushLevels(st: seq<Slot>, x: Slot, rules: seq<Rule>, i: nat)
    requires WideEnough(st, rules) && LevelsDecrease(st, |st|) && x.level == 0
    requires i < |rules| && x.nr == rules[i].first < if st == [] then TWO_32 else st[|st| - 1].nr
    ensures Levelled(st + [x], rules)
  {
    var pushed := st + [x];
    forall k | 0 <= k < |pushed|
      ensures Below(rules, Upper(pushed, k)) - Below(rules, pushed[k].nr) >= Pow2(pushed[k].level)
    {
      UpperPush(st, x, k);
      if k == |st| { BelowStrict(rules, x.nr, Upper(pushed, k), i); }
    }
  }

  /** A new slot for one rule, on top of a strictly levelled stack. */
  lemma PushSlot(buf: seq<Instr>, st: seq<Slot>, rules: seq<Rule>, codes: seq<int>, i: nat)
    requires Partition(rules) && i < |rules| == |codes| && LocOk(buf, codes[i])
    requires StackReady(buf, st, rules[i].last + 1, rules, codes)
    requires |st| >= 2 ==> st[|st| - 2].level != st[|st| - 1].level
    requires st != [] ==> st[|st| - 1].loc != codes[i]
    ensures |st| < STACK_SIZE
    ensures StackReady(buf, st + [Slot(0, codes[i], rules[i].first)], rules[i].first, rules, codes)
  {
    var x := Slot(0, codes[i], rules[i].first);
    StrictLevels(st, rules);
    RoomForSlot(st, rules);
    assert Total(rules[i]);
    RuleFound(buf, rules, codes, i, 0);
    PushCovers(buf, st, x, rules[i].last + 1, rules, codes);
    PushLevels(st, x, rules, i);
    PushDiffers(st, x);
  }

  lemma PushDiffers(st: seq<Slot>, x: Slot)
    requires NeighboursDiffer(st) && (st != [] ==> st[|st| - 1].loc != x.loc)
    ensures NeighboursDiffer(st + [x])
  {
  }

  /** If the two topmost slots are not equally tall, no two slots are. */
  lemma StrictLevels(st: seq<Slot>, rules: seq<Rule>)
    requires Levelled(st, rules) && (|st| >= 2 ==> st[|st| - 2].level != st[|st| - 1].level)
    ensures LevelsDecrease(st, |st|)
  {
    forall j, k | 0 <= j < k < |st| ensures st[j].level > st[k].level {
      if k == |st| - 1 && j < |st| - 2 { assert st[j].level > st[|st| - 2].level; }
    }
  }

  /** The topmost slot of a stack reaching further down. */
  function Widened(st: seq<Slot>, nr: u32): seq<Slot>
    requires st != []
  {
    st[|st| - 1 := st[|st| - 1].(nr := nr)]
  }

  lemma UpperWidened(st: seq<Slot>, nr: u32, k: nat)
    requires k < |st|
    ensures Upper(Widened(st, nr), k) == Upper(st, k)
  {
  }

  lemma WidenCovers(buf: seq<Instr>, st: seq<Slot>, nr: u32, rules: seq<Rule>, codes: seq<int>, top: nat)
    requires st != [] && StackCovers(buf, st, st[|st| - 1].nr, rules, codes, top) && nr <= st[|st| - 1].nr
    requires SlotFinds(buf, st[|st| - 1].loc, nr, st[|st| - 1].nr, rules, codes, top) && Starts(rules, nr)
    ensures StackCovers(buf, Widened(st, nr), nr, rules, codes, top)
  {
    var n, widened := |st| - 1, Widened(st, nr);
    assert SlotFinds(buf, st[n].loc, nr, Upper(st, n), rules, codes, top);
    forall k | 0 <= k < |widened|
      ensures widened[k].nr < Upper(widened, k) && Starts(rules, widened[k].nr)
      ensures LocOk(buf, widened[k].loc)
      ensures SlotFinds(buf, widened[k].loc, widened[k].nr, Upper(widened, k), rules, codes,
                        if k < n then widened[k].level else top)
    {
      UpperWidened(st, nr, k);
      assert st[k].nr < Upper(st, k);
    }
  }

  lemma WidenLevels(st: seq<Slot>, nr: u32, rules: seq<Rule>)
    requires st != [] && Levelled(st, rules) && nr <= st[|st| - 1].nr
    ensures Levelled(Widened(st, nr), rules)
  {
    var widened := Widened(st, nr);
    BelowGrows(rules, nr, st[|st| - 1].nr);
    forall k | 0 <= k < |widened|
      ensures Below(rules, Upper(widened, k)) - Below(rules, widened[k].nr) >= Pow2(widened[k].level)
    {
      UpperWidened(st, nr, k);
      assert Below(rules, Upper(st, k)) - Below(rules, st[k].nr) >= Pow2(st[k].level);
    }
  }

  /** A rule with the same code as the topmost slot widens that slot. */
  lemma WidenSlot(buf: seq<Instr>, st: seq<Slot>, rules: seq<Rule>, codes: seq<int>, i: nat)
    requires Partition(rules) && i < |rules| == |codes|
    requires StackReady(buf, st, rules[i].last + 1, rules, codes)
    requires st != [] && st[|st| - 1].loc == codes[i]
    ensures StackReady(buf, Widened(st, rules[i].first), rules[i].first, rules, codes)
  {
    assert Total(rules[i]);
    RuleFound(buf, rules, codes, i, TopLevel(st));
    WidenCovers(buf, st, rules[i].first, rules, codes, TopLevel(st));
    WidenLevels(st, rules[i].first, rules);
  }
}
