/** The code of a condition, put together from the code of its parts: where it continues, what its
    last instruction does, and that it loses no jump offset. */
module ConditionCode {
  import opened Words
  import opened Bpf
  import opened Expression
  import opened CodeSize
  import opened Comparisons
  import opened Outlines
  import opened CodeMeaning
  import opened CompareCode

  // ----- code that follows an outline -----

  /** The code from b0 up to b, for a condition between the targets t and f, starts at next. */
  predicate Lands(b0: seq<Instr>, b: seq<Instr>, o: Outline, t: int, f: int, next: int) {
    b0 <= b && ((t == f == next && b == b0) || (t != f && LandsApart(b0, b, o, t, f, next)))
  }

  /** The same for different targets. */
  predicate LandsApart(b0: seq<Instr>, b: seq<Instr>, o: Outline, t: int, f: int, next: int) {
    && (if o.verdict.Some? then next == Pick(o.verdict.value, t, f)
        else |b0| <= next < |b| && (o.onTop ==> next == |b| - 1))
    && (o.emits <==> |b0| < |b|)
    && (HoldsKill(b) <==> HoldsKill(b0) || (o.emits && ToKill(t, f)))
  }

  /** The instruction emitted last decides the test top between the targets. */
  ghost predicate Follows(b0: seq<Instr>, b: seq<Instr>, o: Outline, top: Data -> bool, t: int, f: int, next: int)
    requires LocOk(b0, t) && LocOk(b0, f)
  {
    && Lands(b0, b, o, t, f, next)
    && (|b0| < |b| ==> LocOk(b, t) && LocOk(b, f) && LocOk(b, |b| - 1) && Decides(b, |b| - 1, top, t, f))
  }

  lemma LandsExchanged(b0: seq<Instr>, b: seq<Instr>, o: Outline, t: int, f: int, next: int)
    requires Lands(b0, b, o, t, f, next)
    ensures Lands(b0, b, Negated(o), f, t, next)
  {
  }

  lemma FollowsExchanged(b0: seq<Instr>, b: seq<Instr>, o: Outline, top: Data -> bool, other: Data -> bool,
                         t: int, f: int, next: int)
    requires LocOk(b0, t) && LocOk(b0, f) && Follows(b0, b, o, top, t, f, next)
    requires forall d :: other(d) == !top(d)
    ensures Follows(b0, b, Negated(o), other, f, t, next)
  {
    LandsExchanged(b0, b, o, t, f, next);
    if |b0| < |b| { SameDecides(b, |b| - 1, top, other, true, f, t); }
  }

  lemma FollowsSame(b0: seq<Instr>, b: seq<Instr>, o: Outline, top: Data -> bool, other: Data -> bool,
                    t: int, f: int, next: int)
    requires LocOk(b0, t) && LocOk(b0, f) && Follows(b0, b, o, top, t, f, next)
    requires forall d :: other(d) == top(d)
    ensures Follows(b0, b, o, other, t, f, next)
  {
    if |b0| < |b| { SameDecides(b, |b| - 1, top, other, false, t, f); }
  }

  /** Code for the right operand of a conjunction, and for the left one on top. */
  lemma AndLands(b0: seq<Instr>, b1: seq<Instr>, b2: seq<Instr>, l: Outline, r: Outline,
                 t: int, f: int, mid: int, next: int)
    requires t < |b0| && f < |b0|
    requires Lands(b0, b1, r, t, f, mid) && Lands(b1, b2, l, mid, f, next)
    ensures Lands(b0, b2, AndOutline(l, r), t, f, next)
  {
    assert b0 <= b1 <= b2;
  }

  /** What the last instruction of a conjunction tests. */
  ghost function AndTop(l: Outline, r: Outline, lTop: Data -> bool, rTest: Data -> bool, rTop: Data -> bool)
    : Data -> bool
  {
    (d: Data) => if l.emits && r.verdict != Some(false) then lTop(d) && rTest(d) else rTop(d)
  }

  ghost function OrTop(l: Outline, r: Outline, lTop: Data -> bool, rTest: Data -> bool, rTop: Data -> bool)
    : Data -> bool
  {
    (d: Data) => if l.emits && r.verdict != Some(true) then lTop(d) || rTest(d) else rTop(d)
  }

  lemma AndFollows(b0: seq<Instr>, b1: seq<Instr>, b2: seq<Instr>, l: Outline, r: Outline,
                   lTop: Data -> bool, rTop: Data -> bool, rTest: Data -> bool, top: Data -> bool,
                   t: int, f: int, mid: int, next: int)
    requires LocOk(b0, t) && LocOk(b0, f) && LocOk(b1, t) && LocOk(b1, f) && LocOk(b1, mid)
    requires Follows(b0, b1, r, rTop, t, f, mid) && Follows(b1, b2, l, lTop, mid, f, next)
    requires Decides(b1, mid, rTest, t, f)
    requires forall d :: top(d) == AndTop(l, r, lTop, rTest, rTop)(d)
    ensures Follows(b0, b2, AndOutline(l, r), top, t, f, next)
  {
    AndLands(b0, b1, b2, l, r, t, f, mid, next);
    if |b1| < |b2| {
      DecidesExtends(b1, b2, mid, rTest, t, f);
      AndDecides(b2, |b2| - 1, mid, lTop, rTest, top, t, f);
    } else if |b0| < |b1| {
      assert b2 == b1;
      SameDecides(b1, |b1| - 1, rTop, top, false, t, f);
    }
  }

  lemma OrFollows(b0: seq<Instr>, b1: seq<Instr>, b2: seq<Instr>, l: Outline, r: Outline,
                  lTop: Data -> bool, rTop: Data -> bool, rTest: Data -> bool, top: Data -> bool,
                  t: int, f: int, mid: int, next: int)
    requires LocOk(b0, t) && LocOk(b0, f) && LocOk(b1, t) && LocOk(b1, f) && LocOk(b1, mid)
    requires Follows(b0, b1, r, rTop, t, f, mid) && Follows(b1, b2, l, lTop, t, mid, next)
    requires Decides(b1, mid, rTest, t, f)
    requires forall d :: top(d) == OrTop(l, r, lTop, rTest, rTop)(d)
    ensures Follows(b0, b2, OrOutline(l, r), top, t, f, next)
  {
    var lNot, rNot, testNot, topNot := Complement(lTop), Complement(rTop), Complement(rTest), Complement(top);
    FollowsExchanged(b0, b1, r, rTop, rNot, t, f, mid);
    FollowsExchanged(b1, b2, l, lTop, lNot, t, mid, next);
    SameDecides(b1, mid, rTest, testNot, true, f, t);
    AndFollows(b0, b1, b2, Negated(l), Negated(r), lNot, rNot, testNot, topNot, f, t, mid, next);
    FollowsExchanged(b0, b2, AndOutline(Negated(l), Negated(r)), topNot, top, f, t, next);
  }

  ghost function Complement(p: Data -> bool): Data -> bool {
    (d: Data) => !p(d)
  }

  // ----- no offset is lost -----

  /** A target this close never costs the other one its offset. */
  const NEAR: int := MAX_JUMP - 2

  /** Neither target is an instruction, or one of them is at most slack back. */
  predicate Anchored(len: int, slack: int, t: int, f: int) {
    0 <= slack && ((t < 0 && f < 0) || (0 <= t && len - 1 - t <= slack) || (0 <= f && len - 1 - f <= slack))
  }

  /** If a target is near enough for the code to drift away from it, no offset is lost. */
  predicate KeepsSight(b0: seq<Instr>, b: seq<Instr>, drift: int, t: int, f: int) {
    Anchored(|b0|, NEAR - drift, t, f) ==> StaysSighted(b0, b)
  }

  /** How far the code of a condition may drift away from both targets: not at all, unless some of
      it is not reached. */
  function Drift(e: BoolExpr): nat {
    if Open(e) then 0 else ExprSize(e)
  }

  /** Of the targets of the left operand one is again near, or there is only one left. */
  lemma AndAnchored(b0: seq<Instr>, b1: seq<Instr>, o: Outline, slack: int, drift: nat, t: int, f: int, mid: int)
    requires t < |b0| && f < |b0| && Lands(b0, b1, o, t, f, mid) && Anchored(|b0|, slack, t, f)
    requires if o.verdict.None? then o.onTop || |b1| - |b0| <= drift else o.emits ==> |b1| - |b0| <= drift
    ensures mid == f || Anchored(|b1|, slack + drift, mid, f)
    ensures mid == t || Anchored(|b1|, slack + drift, t, mid)
  {
  }

  // ----- comparisons -----

  /** The code of a comparison of two words. */
  ghost predicate WordBuilt(b0: seq<Instr>, b: seq<Instr>, cond: Cond, l: Value, r: Value, w: Word,
                            t: int, f: int, next: int)
    requires LocOk(b0, t) && LocOk(b0, f)
  {
    && b0 <= b && LocOk(b, t) && LocOk(b, f) && LocOk(b, next)
    && Decides(b, next, WordTestOn(cond, l, r, w), t, f)
    && Lands(b0, b, WordOutline(cond, l, r, w), t, f, next)
    && KeepsSight(b0, b, 0, t, f)
  }

  /** When a comparison loads its operands: not at all, if it emitted a branch, or always. */
  datatype LoadMode = Never | Normal | Always

  /** The branch of a plan, if its constant does not settle it, without or with the operands loaded
      on top; when they are always loaded, they are loaded on top of the code at f if need be. */
  ghost predicate PlanBuilt(b0: seq<Instr>, b: seq<Instr>, p: Plan, w: Word, load: LoadMode, t: int, f: int, next: int)
    requires LocOk(b0, t) && LocOk(b0, f)
  {
    && b0 <= b && LocOk(b, t) && LocOk(b, f) && LocOk(b, next)
    && KeepsSight(b0, b, 0, t, f)
    && (if load.Always? then |b0| <= next == |b| - 1 && (HoldsKill(b) ==> HoldsKill(b0) || ToKill(t, f))
        else Lands(b0, b, TestOutline(PlanVerdict(p, w)), t, f, next))
    && (|b0| <= next ==> p.Branch?)
    && (load.Never? && p.Branch? ==> BareBranch(b, next, p, w, t, f))
    && (!load.Never? && |b0| <= next ==> LoadedBranch(b, next, p, w, t, f))
  }

  lemma PlanLoaded(b0: seq<Instr>, b1: seq<Instr>, b: seq<Instr>, p: Plan, w: Word, load: LoadMode,
                   t: int, f: int, mid: int, next: int)
    requires LocOk(b0, t) && LocOk(b0, f) && p.Branch? && PlanBuilt(b0, b1, p, w, Never, t, f, mid)
    requires load.Always? || (load.Normal? && |b0| <= mid)
    requires b1 <= b && Harmless(b1, b) && LocOk(b, next) && |b1| <= next == |b| - 1
    requires LocOk(b, t) && LocOk(b, f) && LoadedBranch(b, next, p, w, t, f)
    ensures PlanBuilt(b0, b, p, w, load, t, f, next)
  {
    assert b0 <= b1 <= b;
    if Anchored(|b0|, NEAR, t, f) { StaysSightedOn(b0, b1, b); }
  }

  /** A comparison that loads its operands, if it emits a branch, decides the two words. */
  lemma PlanIsWord(b0: seq<Instr>, b: seq<Instr>, cond: Cond, l: Value, r: Value, w: Word, t: int, f: int, next: int)
    requires !cond.Jset? && LocOk(b0, t) && LocOk(b0, f)
    requires PlanBuilt(b0, b, PlanCmp(cond, l, r, w), w, Normal, t, f, next)
    ensures WordBuilt(b0, b, cond, l, r, w, t, f, next)
  {
    if |b0| <= next {
      LoadedBranchDecides(b, next, cond, l, r, w, t, f);
    } else {
      SettledDecides(b, cond, l, r, w, t, f, next);
    }
  }

  lemma WordFollows(b0: seq<Instr>, b: seq<Instr>, cond: Cond, l: Value, r: Value, w: Word, t: int, f: int, next: int)
    requires LocOk(b0, t) && LocOk(b0, f) && WordBuilt(b0, b, cond, l, r, w, t, f, next)
    ensures Follows(b0, b, WordOutline(cond, l, r, w), WordTestOn(cond, l, r, w), t, f, next)
  {
  }

  /** A comparison that emits nothing is settled, or has one target only. */
  lemma SettledDecides(buf: seq<Instr>, cond: Cond, l: Value, r: Value, w: Word, t: int, f: int, next: int)
    requires !cond.Jset? && LocOk(buf, t) && LocOk(buf, f)
    requires Lands(buf, buf, WordOutline(cond, l, r, w), t, f, next)
    ensures Decides(buf, next, WordTestOn(cond, l, r, w), t, f)
  {
    if t != f {
      forall d: Data ensures WordTest(cond, l, r, w, d) == WordVerdict(cond, l, r, w).value {
        WordVerdictSound(cond, l, r, w, d);
      }
    }
  }

  /** What the last instruction of a comparison of numbers tests. */
  ghost function NumberTopOn(cond: Cond, l: Value, r: Value): Data -> bool
    requires !cond.Jset?
  {
    if NumberOutline(cond, l, r).verdict.None? then NumberOn(cond, l, r) else WordTestOn(cond, l, r, Low)
  }

  /** The code of a comparison of numbers. */
  ghost predicate NumberBuilt(b0: seq<Instr>, b: seq<Instr>, cond: Cond, l: Value, r: Value, t: int, f: int, next: int)
    requires !cond.Jset? && LocOk(b0, t) && LocOk(b0, f)
  {
    && b0 <= b && LocOk(b, t) && LocOk(b, f) && LocOk(b, next)
    && Decides(b, next, NumberOn(cond, l, r), t, f)
    && Follows(b0, b, NumberOutline(cond, l, r), NumberTopOn(cond, l, r), t, f, next)
    && KeepsSight(b0, b, 0, t, f)
  }

  /** What the last instruction tests, when it is not where the comparison starts. */
  lemma NumberFollows(b0: seq<Instr>, b: seq<Instr>, cond: Cond, l: Value, r: Value, top: Data -> bool,
                      t: int, f: int, next: int)
    requires !cond.Jset? && LocOk(b0, t) && LocOk(b0, f) && LocOk(b, t) && LocOk(b, f) && LocOk(b, next)
    requires Follows(b0, b, NumberOutline(cond, l, r), top, t, f, next)
    requires Decides(b, next, NumberOn(cond, l, r), t, f)
    requires NumberOutline(cond, l, r).verdict.Some? && NumberOutline(cond, l, r).emits ==>
               forall d :: top(d) == WordTest(cond, l, r, Low, d)
    ensures Follows(b0, b, NumberOutline(cond, l, r), NumberTopOn(cond, l, r), t, f, next)
  {
    var o := NumberOutline(cond, l, r);
    if o.verdict.None? {
      OpenComparison(cond, l, r);
    } else if o.emits {
      FollowsSame(b0, b, o, top, NumberTopOn(cond, l, r), t, f, next);
    }
  }

  lemma {:induction false} NarrowBuilt(b0: seq<Instr>, b: seq<Instr>, cond: Cond, l: Value, r: Value, t: int, f: int,
                                       next: int)
    requires !cond.Jset? && !l.Is64() && !r.Is64() && LocOk(b0, t) && LocOk(b0, f)
    requires WordBuilt(b0, b, cond, l, r, Low, t, f, next)
    ensures NumberBuilt(b0, b, cond, l, r, t, f, next)
  {
    WordFollows(b0, b, cond, l, r, Low, t, f, next);
    NumberFollows(b0, b, cond, l, r, WordTestOn(cond, l, r, Low), t, f, next);
  }

  /** One of the targets of the next test is near when one of the targets of this one is. */
  lemma WordAnchored(b0: seq<Instr>, b1: seq<Instr>, cond: Cond, l: Value, r: Value, w: Word, t: int, f: int, mid: int)
    requires t < |b0| && f < |b0| && Lands(b0, b1, WordOutline(cond, l, r, w), t, f, mid)
    requires Anchored(|b0|, NEAR, t, f)
    ensures mid == f || Anchored(|b1|, NEAR, mid, f)
    ensures mid == t || Anchored(|b1|, NEAR, t, mid)
  {
    AndAnchored(b0, b1, WordOutline(cond, l, r, w), NEAR, 0, t, f, mid);
  }

  lemma {:induction false} EqualityBuilt(b0: seq<Instr>, b1: seq<Instr>, b2: seq<Instr>, l: Value, r: Value,
                                         t: int, f: int, low: int, next: int)
    requires (l.Is64() || r.Is64()) && LocOk(b0, t) && LocOk(b0, f)
    requires WordBuilt(b0, b1, Jeq, l, r, Low, t, f, low) && WordBuilt(b1, b2, Jeq, l, r, High, low, f, next)
    ensures NumberBuilt(b0, b2, Jeq, l, r, t, f, next)
  {
    var lowTest, highTest := WordTestOn(Jeq, l, r, Low), WordTestOn(Jeq, l, r, High);
    var lo, hi := WordOutline(Jeq, l, r, Low), WordOutline(Jeq, l, r, High);
    DecidesExtends(b1, b2, low, lowTest, t, f);
    EqualityByWord(b2, low, next, l, r, t, f);
    WordFollows(b0, b1, Jeq, l, r, Low, t, f, low);
    WordFollows(b1, b2, Jeq, l, r, High, low, f, next);
    var top := AndTop(hi, lo, highTest, lowTest, lowTest);
    AndFollows(b0, b1, b2, hi, lo, highTest, lowTest, lowTest, top, t, f, low, next);
    NumberFollows(b0, b2, Jeq, l, r, top, t, f, next);
    if Anchored(|b0|, NEAR, t, f) {
      WordAnchored(b0, b1, Jeq, l, r, Low, t, f, low);
      StaysSightedOn(b0, b1, b2);
    }
  }

  /** A test for "greater or equal" that constants decide against decides the one for "greater". */
  lemma BothSettled(l: Value, r: Value, w: Word)
    requires WordVerdict(Jge, l, r, w) == Some(false)
    ensures WordVerdict(Jgt, l, r, w).Some?
  {
  }

  /** Without code for the second test on the high words. */
  lemma {:induction false} OrderApartFollows(b0: seq<Instr>, b1: seq<Instr>, b2: seq<Instr>, cond: Cond, l: Value,
                                             r: Value, t: int, f: int, low: int, mid: int, next: int)
    requires (cond.Jgt? || cond.Jge?) && (l.Is64() || r.Is64()) && LocOk(b0, t) && LocOk(b0, f)
    requires WordBuilt(b0, b1, cond, l, r, Low, t, f, low)
    requires WordBuilt(b1, b1, Jge, l, r, High, low, f, mid)
    requires WordBuilt(b1, b2, Jgt, l, r, High, t, mid, next)
    requires Decides(b2, next, NumberTestOn(cond, l, r), t, f)
    ensures Follows(b0, b2, NumberOutline(cond, l, r), NumberTopOn(cond, l, r), t, f, next)
  {
    var lowTest, ge, gt := WordTestOn(cond, l, r, Low), WordTestOn(Jge, l, r, High), WordTestOn(Jgt, l, r, High);
    var lo, geo, gto := WordOutline(cond, l, r, Low), WordOutline(Jge, l, r, High), WordOutline(Jgt, l, r, High);
    WordFollows(b0, b1, cond, l, r, Low, t, f, low);
    WordFollows(b1, b1, Jge, l, r, High, low, f, mid);
    WordFollows(b1, b2, Jgt, l, r, High, t, mid, next);
    var rTop, rTest := AndTop(geo, lo, ge, lowTest, lowTest), BothOn(ge, lowTest);
    AndFollows(b0, b1, b1, geo, lo, ge, lowTest, lowTest, rTop, t, f, low, mid);
    AndDecides(b1, mid, low, ge, lowTest, rTest, t, f);
    var top := OrTop(gto, AndOutline(geo, lo), gt, rTest, rTop);
    OrFollows(b0, b1, b2, gto, AndOutline(geo, lo), gt, rTop, rTest, top, t, f, mid, next);
    if geo.verdict.None? { GreaterNeverSettled(l, r, High); }
    NumberFollows(b0, b2, cond, l, r, top, t, f, next);
  }

  lemma {:induction false} OrderApartBuilt(b0: seq<Instr>, b1: seq<Instr>, b2: seq<Instr>, cond: Cond, l: Value,
                                           r: Value, t: int, f: int, low: int, mid: int, next: int)
    requires (cond.Jgt? || cond.Jge?) && (l.Is64() || r.Is64()) && LocOk(b0, t) && LocOk(b0, f)
    requires WordBuilt(b0, b1, cond, l, r, Low, t, f, low) && LocOk(b1, mid)
    requires Lands(b1, b1, WordOutline(Jge, l, r, High), low, f, mid)
    requires WordBuilt(b1, b2, Jgt, l, r, High, t, mid, next)
    ensures NumberBuilt(b0, b2, cond, l, r, t, f, next)
  {
    SettledDecides(b1, Jge, l, r, High, low, f, mid);
    DecidesExtends(b1, b2, low, WordTestOn(cond, l, r, Low), t, f);
    DecidesExtends(b1, b2, mid, WordTestOn(Jge, l, r, High), low, f);
    InequalityApart(b2, cond, l, r, low, mid, next, t, f);
    OrderApartFollows(b0, b1, b2, cond, l, r, t, f, low, mid, next);
    OrderApartSight(b0, b1, b2, cond, l, r, t, f, low, mid, next);
  }

  lemma OrderApartSight(b0: seq<Instr>, b1: seq<Instr>, b2: seq<Instr>, cond: Cond, l: Value, r: Value,
                        t: int, f: int, low: int, mid: int, next: int)
    requires t < |b0| && f < |b0|
    requires Lands(b0, b1, WordOutline(cond, l, r, Low), t, f, low) && KeepsSight(b0, b1, 0, t, f)
    requires Lands(b1, b1, WordOutline(Jge, l, r, High), low, f, mid)
    requires Lands(b1, b2, WordOutline(Jgt, l, r, High), t, mid, next) && KeepsSight(b1, b2, 0, t, mid)
    ensures KeepsSight(b0, b2, 0, t, f)
  {
    if Anchored(|b0|, NEAR, t, f) {
      WordAnchored(b0, b1, cond, l, r, Low, t, f, low);
      if mid != low { BothSettled(l, r, High); }
      StaysSightedOn(b0, b1, b2);
    }
  }

  /** The two tests on the high words with one load between them. */
  lemma {:induction false} OrderSharedBuilt(b0: seq<Instr>, b1: seq<Instr>, b2: seq<Instr>, b3: seq<Instr>,
                                            cond: Cond, l: Value, r: Value, t: int, f: int, low: int, mid: int,
                                            next: int)
    requires (cond.Jgt? || cond.Jge?) && (l.Is64() || r.Is64()) && LocOk(b0, t) && LocOk(b0, f)
    requires WordBuilt(b0, b1, cond, l, r, Low, t, f, low)
    requires PlanBuilt(b1, b2, PlanCmp(Jge, l, r, High), High, Never, low, f, mid) && |b1| <= mid
    requires PlanBuilt(b2, b3, PlanCmp(Jgt, l, r, High), High, Always, t, mid, next)
    ensures NumberBuilt(b0, b3, cond, l, r, t, f, next)
  {
    assert b0 <= b1 <= b2 <= b3;
    SharedDecides(b0, b1, b2, b3, cond, l, r, t, f, low, mid, next);
    SharedOutline(b0, b1, b2, cond, l, r, t, f, low, mid);
    if Anchored(|b0|, NEAR, t, f) {
      WordAnchored(b0, b1, cond, l, r, Low, t, f, low);
      StaysSightedOn(b0, b1, b2);
      StaysSightedOn(b0, b2, b3);
    }
  }

  lemma SharedDecides(b0: seq<Instr>, b1: seq<Instr>, b2: seq<Instr>, b3: seq<Instr>, cond: Cond, l: Value, r: Value,
                      t: int, f: int, low: int, mid: int, next: int)
    requires (cond.Jgt? || cond.Jge?) && LocOk(b0, t) && LocOk(b0, f)
    requires WordBuilt(b0, b1, cond, l, r, Low, t, f, low)
    requires PlanBuilt(b1, b2, PlanCmp(Jge, l, r, High), High, Never, low, f, mid) && |b1| <= mid
    requires PlanBuilt(b2, b3, PlanCmp(Jgt, l, r, High), High, Always, t, mid, next)
    ensures LocOk(b3, t) && LocOk(b3, f) && Decides(b3, next, NumberTestOn(cond, l, r), t, f)
  {
    assert b1 <= b2 <= b3;
    DecidesExtends(b1, b3, low, WordTestOn(cond, l, r, Low), t, f);
    BareBranchExtends(b2, b3, mid, PlanCmp(Jge, l, r, High), High, low, f);
    InequalityShared(b3, cond, l, r, low, mid, next, t, f);
  }

  lemma {:induction false} SharedOutline(b0: seq<Instr>, b1: seq<Instr>, b2: seq<Instr>, cond: Cond, l: Value, r: Value,
                                         t: int, f: int, low: int, mid: int)
    requires (cond.Jgt? || cond.Jge?) && (l.Is64() || r.Is64()) && t < |b0| && f < |b0|
    requires Lands(b0, b1, WordOutline(cond, l, r, Low), t, f, low)
    requires Lands(b1, b2, WordOutline(Jge, l, r, High), low, f, mid) && |b1| <= mid
    ensures t != f && NumberOutline(cond, l, r) == BRANCHING
  {
    GreaterNeverSettled(l, r, High);
  }

  // ----- conditions -----

  ghost function TopOn(e: BoolExpr): Data -> bool {
    (d: Data) => TopHolds(e, d)
  }

  /** The code of a condition. */
  ghost predicate ConditionBuilt(b0: seq<Instr>, b: seq<Instr>, e: BoolExpr, t: int, f: int, next: int)
    requires LocOk(b0, t) && LocOk(b0, f)
  {
    && b0 <= b && LocOk(b, t) && LocOk(b, f) && LocOk(b, next) && |b| <= |b0| + ExprSize(e)
    && Decides(b, next, HoldsOn(e), t, f)
    && Follows(b0, b, OutlineOf(e), TopOn(e), t, f, next)
    && KeepsSight(b0, b, Drift(e), t, f)
  }

  /** The left operand of a junction starts as close to a target as the whole needs it to. */
  lemma {:induction false} JunctionAnchored(b0: seq<Instr>, b1: seq<Instr>, e: BoolExpr, l: BoolExpr, r: BoolExpr,
                                            t: int, f: int, mid: int)
    requires (e == And(l, r) || e == Or(l, r)) && NoTruthNode(e) && t < |b0| && f < |b0|
    requires Lands(b0, b1, OutlineOf(r), t, f, mid) && |b1| <= |b0| + ExprSize(r)
    requires Anchored(|b0|, NEAR - Drift(e), t, f)
    ensures Anchored(|b0|, NEAR - Drift(r), t, f)
    ensures mid == f || Anchored(|b1|, NEAR - Drift(l), mid, f)
    ensures mid == t || Anchored(|b1|, NEAR - Drift(l), t, mid)
  {
    if Open(r) { OpenBranches(r); }
    AndAnchored(b0, b1, OutlineOf(r), NEAR - Drift(e), if Open(e) then 0 else ExprSize(r), t, f, mid);
  }

  /** No offset is lost in a junction whose left operand has the targets t2 and f2. */
  lemma {:induction false} JunctionSight(b0: seq<Instr>, b1: seq<Instr>, b2: seq<Instr>, e: BoolExpr, l: BoolExpr,
                                         r: BoolExpr, t: int, f: int, mid: int, t2: int, f2: int)
    requires (e == And(l, r) || e == Or(l, r)) && NoTruthNode(e) && t < |b0| && f < |b0|
    requires Lands(b0, b1, OutlineOf(r), t, f, mid) && |b1| <= |b0| + ExprSize(r)
    requires KeepsSight(b0, b1, Drift(r), t, f) && KeepsSight(b1, b2, Drift(l), t2, f2)
    requires (t2 == mid && f2 == f) || (t2 == t && f2 == mid)
    requires b1 <= b2 && (t2 == f2 ==> b2 == b1)
    ensures KeepsSight(b0, b2, Drift(e), t, f)
  {
    if Anchored(|b0|, NEAR - Drift(e), t, f) {
      JunctionAnchored(b0, b1, e, l, r, t, f, mid);
      StaysSightedOn(b0, b1, b2);
    }
  }

  lemma {:induction false} AndBuilt(b0: seq<Instr>, b1: seq<Instr>, b2: seq<Instr>, e: BoolExpr, t: int, f: int,
                                    mid: int, next: int)
    requires e.And? && NoTruthNode(e) && LocOk(b0, t) && LocOk(b0, f)
    requires ConditionBuilt(b0, b1, e.right, t, f, mid) && ConditionBuilt(b1, b2, e.left, mid, f, next)
    ensures ConditionBuilt(b0, b2, e, t, f, next)
  {
    DecidesExtends(b1, b2, mid, HoldsOn(e.right), t, f);
    AndDecides(b2, next, mid, HoldsOn(e.left), HoldsOn(e.right), HoldsOn(e), t, f);
    AndFollows(b0, b1, b2, OutlineOf(e.left), OutlineOf(e.right), TopOn(e.left), TopOn(e.right), HoldsOn(e.right),
               TopOn(e), t, f, mid, next);
    JunctionSight(b0, b1, b2, e, e.left, e.right, t, f, mid, mid, f);
  }

  lemma {:induction false} OrBuilt(b0: seq<Instr>, b1: seq<Instr>, b2: seq<Instr>, e: BoolExpr, t: int, f: int,
                                   mid: int, next: int)
    requires e.Or? && NoTruthNode(e) && LocOk(b0, t) && LocOk(b0, f)
    requires ConditionBuilt(b0, b1, e.right, t, f, mid) && ConditionBuilt(b1, b2, e.left, t, mid, next)
    ensures ConditionBuilt(b0, b2, e, t, f, next)
  {
    DecidesExtends(b1, b2, mid, HoldsOn(e.right), t, f);
    OrDecides(b2, next, mid, HoldsOn(e.left), HoldsOn(e.right), HoldsOn(e), t, f);
    OrFollows(b0, b1, b2, OutlineOf(e.left), OutlineOf(e.right), TopOn(e.left), TopOn(e.right), HoldsOn(e.right),
              TopOn(e), t, f, mid, next);
    JunctionSight(b0, b1, b2, e, e.left, e.right, t, f, mid, t, mid);
  }

  lemma NotBuilt(b0: seq<Instr>, b: seq<Instr>, e: BoolExpr, t: int, f: int, next: int)
    requires e.Not? && LocOk(b0, t) && LocOk(b0, f)
    requires ConditionBuilt(b0, b, e.child, f, t, next)
    ensures ConditionBuilt(b0, b, e, t, f, next)
  {
    SameDecides(b, next, HoldsOn(e.child), HoldsOn(e), true, t, f);
    FollowsExchanged(b0, b, OutlineOf(e.child), TopOn(e.child), TopOn(e), f, t, next);
  }

  lemma {:induction false} CompareTop(e: BoolExpr, d: Data)
    requires e.Compare?
    ensures TopHolds(e, d) == (NumberTopOn(CondOf(e.op), e.lhs, e.rhs)(d) != Exchanged(e.op))
  {
  }

  lemma {:induction false} CompareFollows(b0: seq<Instr>, b: seq<Instr>, e: BoolExpr, t: int, f: int, yes: int,
                                          no: int, next: int)
    requires e.Compare? && LocOk(b0, t) && LocOk(b0, f) && (yes, no) == if Exchanged(e.op) then (f, t) else (t, f)
    requires var cond := CondOf(e.op);
             Follows(b0, b, NumberOutline(cond, e.lhs, e.rhs), NumberTopOn(cond, e.lhs, e.rhs), yes, no, next)
    ensures Follows(b0, b, OutlineOf(e), TopOn(e), t, f, next)
  {
    var o, top := NumberOutline(CondOf(e.op), e.lhs, e.rhs), NumberTopOn(CondOf(e.op), e.lhs, e.rhs);
    forall d: Data ensures TopOn(e)(d) == (top(d) != Exchanged(e.op)) { CompareTop(e, d); }
    if Exchanged(e.op) {
      FollowsExchanged(b0, b, o, top, TopOn(e), f, t, next);
    } else {
      FollowsSame(b0, b, o, top, TopOn(e), t, f, next);
    }
  }

  lemma {:induction false} CompareBuilt(b0: seq<Instr>, b: seq<Instr>, e: BoolExpr, t: int, f: int, yes: int, no: int,
                                        next: int)
    requires e.Compare? && LocOk(b0, t) && LocOk(b0, f) && (yes, no) == if Exchanged(e.op) then (f, t) else (t, f)
    requires NumberBuilt(b0, b, CondOf(e.op), e.lhs, e.rhs, yes, no, next) && |b| <= |b0| + ExprSize(e)
    ensures ConditionBuilt(b0, b, e, t, f, next)
  {
    CompareDecides(b, next, e, t, f, yes, no);
    CompareFollows(b0, b, e, t, f, yes, no, next);
  }

  // ----- what constants settle is so -----

  predicate Judges(o: Outline, truth: bool) {
    o.verdict.Some? ==> o.verdict.value == truth
  }

  lemma JunctionJudges(l: Outline, r: Outline, p: bool, q: bool)
    requires Judges(l, p) && Judges(r, q)
    ensures Judges(AndOutline(l, r), p && q) && Judges(OrOutline(l, r), p || q)
  {
  }

  lemma WordJudges(cond: Cond, l: Value, r: Value, w: Word, d: Data)
    requires !cond.Jset?
    ensures Judges(WordOutline(cond, l, r, w), WordTest(cond, l, r, w, d))
  {
    if WordVerdict(cond, l, r, w).Some? { WordVerdictSound(cond, l, r, w, d); }
  }

  lemma NumberJudges(cond: Cond, l: Value, r: Value, d: Data)
    requires !cond.Jset?
    ensures Judges(NumberOutline(cond, l, r), NumberOn(cond, l, r)(d))
  {
    WordJudges(cond, l, r, Low, d);
    if l.Is64() || r.Is64() {
      var low := WordTest(cond, l, r, Low, d);
      if cond.Jeq? {
        WordJudges(Jeq, l, r, High, d);
        JunctionJudges(WordOutline(Jeq, l, r, High), WordOutline(Jeq, l, r, Low), WordTest(Jeq, l, r, High, d), low);
        OrderByWord(ValueOf(l, d), ValueOf(r, d));
      } else {
        var ge := WordTest(Jge, l, r, High, d);
        WordJudges(Jge, l, r, High, d);
        WordJudges(Jgt, l, r, High, d);
        JunctionJudges(WordOutline(Jge, l, r, High), WordOutline(cond, l, r, Low), ge, low);
        JunctionJudges(WordOutline(Jgt, l, r, High),
                       AndOutline(WordOutline(Jge, l, r, High), WordOutline(cond, l, r, Low)),
                       WordTest(Jgt, l, r, High, d), ge && low);
        NumberTestByWord(cond, l, r, d);
      }
    }
  }

  /** A condition that is settled is what it has been settled as. */
  lemma {:induction false} VerdictSound(e: BoolExpr, d: Data)
    ensures Judges(OutlineOf(e), Holds(e, d))
  {
    match e
    case True =>
    case False =>
    case Not(c) => VerdictSound(c, d);
    case And(l, r) =>
      VerdictSound(l, d);
      VerdictSound(r, d);
      JunctionJudges(OutlineOf(l), OutlineOf(r), Holds(l, d), Holds(r, d));
    case Or(l, r) =>
      VerdictSound(l, d);
      VerdictSound(r, d);
      JunctionJudges(OutlineOf(l), OutlineOf(r), Holds(l, d), Holds(r, d));
    case Compare(op, l, r) => NumberJudges(CondOf(op), l, r, d);
  }
}
