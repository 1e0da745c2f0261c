/** Filter expressions: their trees, their meaning on the arguments of a system call, and
    the simplifier that runs before code generation. */
module Expression {
  import opened Words
  import opened Bpf

  type ArgIndex = i: nat | i < SYSCALL_MAX_ARGS

  datatype BitOp = BitOrOp | BitAndOp

  datatype CmpOp = Gt | Lt | Ge | Le | Eq | Neq

  /** Trees that denote a 64-bit number. Var carries the declared size of the argument in
      bytes. */
  datatype Value =
    | Num(n: u64)
    | Var(arg: ArgIndex, size: int)
    | Bits(op: BitOp, left: Value, right: Value)
  {
    /** Position of the node type in the declaration order of node types. */
    function Kind(): nat {
      match this
      case Num(_) => 0
      case Var(_, _) => 1
      case Bits(BitOrOp, _, _) => 14
      case Bits(BitAndOp, _, _) => 15
    }

    function Size(): nat {
      if Bits? then 1 + left.Size() + right.Size() else 1
    }

    /** Whether comparing this value needs both words. */
    predicate Is64() {
      match this
      case Num(n) => n > UINT32_MAX
      case Var(_, size) => size == 8
      case Bits(_, l, r) => l.Is64() || r.Is64()
    }
  }

  /** Trees that denote a truth value. */
  datatype BoolExpr =
    | True
    | False
    | Not(child: BoolExpr)
    | And(left: BoolExpr, right: BoolExpr)
    | Or(left: BoolExpr, right: BoolExpr)
    | Compare(op: CmpOp, lhs: Value, rhs: Value)
  {
    function Kind(): nat {
      match this
      case True => 3
      case False => 4
      case Not(_) => 5
      case And(_, _) => 6
      case Or(_, _) => 7
      case Compare(Gt, _, _) => 8
      case Compare(Lt, _, _) => 9
      case Compare(Ge, _, _) => 10
      case Compare(Le, _, _) => 11
      case Compare(Eq, _, _) => 12
      case Compare(Neq, _, _) => 13
    }
  }

  // ----- meaning -----

  function ApplyBits(op: BitOp, a: u64, b: u64): u64 {
    if op.BitAndOp? then And64(a, b) else Or64(a, b)
  }

  function ApplyCmp(op: CmpOp, a: u64, b: u64): bool {
    match op
    case Gt => a > b
    case Lt => a < b
    case Ge => a >= b
    case Le => a <= b
    case Eq => a == b
    case Neq => a != b
  }

  function ValueOf(v: Value, d: Data): u64 {
    match v
    case Num(n) => n
    case Var(arg, _) => d.args[arg]
    case Bits(op, l, r) => ApplyBits(op, ValueOf(l, d), ValueOf(r, d))
  }

  /** The documented meaning: every comparison is a comparison of 64-bit numbers. */
  predicate Holds64(e: BoolExpr, d: Data) {
    match e
    case True => true
    case False => false
    case Not(c) => !Holds64(c, d)
    case And(l, r) => Holds64(l, d) && Holds64(r, d)
    case Or(l, r) => Holds64(l, d) || Holds64(r, d)
    case Compare(op, l, r) => ApplyCmp(op, ValueOf(l, d), ValueOf(r, d))
  }

  /** The compiled meaning: a comparison looks at the low words only, unless one of its
      sides is 64 bits wide. */
  predicate Holds(e: BoolExpr, d: Data) {
    match e
    case True => true
    case False => false
    case Not(c) => !Holds(c, d)
    case And(l, r) => Holds(l, d) && Holds(r, d)
    case Or(l, r) => Holds(l, d) || Holds(r, d)
    case Compare(op, l, r) =>
      if l.Is64() || r.Is64() then ApplyCmp(op, ValueOf(l, d), ValueOf(r, d))
      else ApplyCmp(op, WordOf(ValueOf(l, d), Low), WordOf(ValueOf(r, d), Low))
  }

  // ----- the simplifier -----

  function Clobber(op: BitOp): u64 {
    if op.BitAndOp? then 0 else UINT64_MAX
  }

  function Identity(op: BitOp): u64 {
    if op.BitAndOp? then UINT64_MAX else 0
  }

  function SimplifyValue(v: Value): Value {
    match v
    case Num(_) => v
    case Var(_, _) => v
    case Bits(op, l0, r0) =>
      var l, r := SimplifyValue(l0), SimplifyValue(r0);
      if l.Num? && r.Num? then Num(ApplyBits(op, l.n, r.n))
      else
        // the swap is local: the node keeps its operand order
        var (left, right) := if l.Kind() < r.Kind() then (r, l) else (l, r);
        if right.Num? && right.n == Clobber(op) then Num(Clobber(op))
        else if right.Num? && right.n == Identity(op) then left
        else Bits(op, l, r)
  }

  function Mirrored(op: CmpOp): CmpOp {
    match op
    case Gt => Lt
    case Lt => Gt
    case Ge => Le
    case Le => Ge
    case Eq => Eq
    case Neq => Neq
  }

  function SimplifyJunction(conj: bool, l: BoolExpr, r: BoolExpr): BoolExpr {
    var dominant, recessive := if conj then False else True, if conj then True else False;
    var (left, right) := if l.Kind() < r.Kind() then (r, l) else (l, r);
    if left == dominant || right == dominant then dominant
    else if right == recessive then left
    else if conj then And(l, r) else Or(l, r)
  }

  function Simplify(e: BoolExpr): BoolExpr {
    match e
    case True => e
    case False => e
    case Not(c0) =>
      var c := Simplify(c0);
      if c.True? then False else if c.False? then True else Not(c)
    case And(l, r) => SimplifyJunction(true, Simplify(l), Simplify(r))
    case Or(l, r) => SimplifyJunction(false, Simplify(l), Simplify(r))
    case Compare(op0, l0, r0) =>
      var l, r := SimplifyValue(l0), SimplifyValue(r0);
      if l.Num? && r.Num? then
        if ApplyCmp(op0, l.n, r.n) then True else False
      else
        var op := if l.Kind() < r.Kind() then Mirrored(op0) else op0;
        var onEqual := if op.Gt? || op.Lt? || op.Neq? then False else True;
        if l.Var? && r.Var? && l.arg == r.arg then onEqual else Compare(op0, l, r)
  }

  // ----- the simplifier preserves the documented meaning -----

  lemma {:induction false} SimplifyValueCorrect(v: Value, d: Data)
    ensures ValueOf(SimplifyValue(v), d) == ValueOf(v, d)
  {
    if v.Bits? {
      SimplifyValueCorrect(v.left, d);
      SimplifyValueCorrect(v.right, d);
      Word64Laws(ValueOf(v.left, d), ValueOf(v.right, d));
      Word64Laws(ValueOf(v.right, d), ValueOf(v.left, d));
    }
  }

  lemma {:induction false} SimplifyCorrect(e: BoolExpr, d: Data)
    ensures Holds64(Simplify(e), d) == Holds64(e, d)
  {
    match e
    case True =>
    case False =>
    case Not(c) => SimplifyCorrect(c, d);
    case And(l, r) => SimplifyCorrect(l, d); SimplifyCorrect(r, d);
    case Or(l, r) => SimplifyCorrect(l, d); SimplifyCorrect(r, d);
    case Compare(_, l, r) => SimplifyValueCorrect(l, d); SimplifyValueCorrect(r, d);
  }

  // ----- the simplifier reaches a normal form -----

  predicate NormalValue(v: Value) {
    match v
    case Num(_) => true
    case Var(_, _) => true
    case Bits(op, l, r) =>
      && NormalValue(l) && NormalValue(r)
      && !(l.Num? && r.Num?)
      && (l.Num? ==> l.n != Clobber(op) && l.n != Identity(op))
      && (r.Num? ==> r.n != Clobber(op) && r.n != Identity(op))
  }

  /** No truth constant anywhere, and every comparison has something to decide. */
  predicate NormalTree(e: BoolExpr) {
    match e
    case True => false
    case False => false
    case Not(c) => NormalTree(c)
    case And(l, r) => NormalTree(l) && NormalTree(r)
    case Or(l, r) => NormalTree(l) && NormalTree(r)
    case Compare(_, l, r) =>
      && NormalValue(l) && NormalValue(r)
      && !(l.Num? && r.Num?)
      && !(l.Var? && r.Var? && l.arg == r.arg)
  }

  /** No truth constant anywhere in the tree: what the code generator can take. */
  predicate NoTruthNode(e: BoolExpr) {
    match e
    case True => false
    case False => false
    case Not(c) => NoTruthNode(c)
    case And(l, r) => NoTruthNode(l) && NoTruthNode(r)
    case Or(l, r) => NoTruthNode(l) && NoTruthNode(r)
    case Compare(_, _, _) => true
  }

  /** The simplifier's result is a truth constant itself or contains none, so the code
      generator never meets one. */
  lemma {:induction false} SimplifiedIsGenerable(e: BoolExpr)
    ensures Simplify(e).True? || Simplify(e).False? || NoTruthNode(Simplify(e))
  {
    match e
    case True =>
    case False =>
    case Not(c) => SimplifiedIsGenerable(c);
    case And(l, r) =>
      SimplifiedIsGenerable(l);
      SimplifiedIsGenerable(r);
      JunctionGenerable(true, Simplify(l), Simplify(r));
    case Or(l, r) =>
      SimplifiedIsGenerable(l);
      SimplifiedIsGenerable(r);
      JunctionGenerable(false, Simplify(l), Simplify(r));
    case Compare(_, _, _) =>
  }

  lemma {:induction false} JunctionGenerable(conj: bool, l: BoolExpr, r: BoolExpr)
    requires (l.True? || l.False? || NoTruthNode(l)) && (r.True? || r.False? || NoTruthNode(r))
    ensures var e := SimplifyJunction(conj, l, r); e.True? || e.False? || NoTruthNode(e)
  {
  }

  predicate Normal(e: BoolExpr) {
    e.True? || e.False? || NormalTree(e)
  }

  lemma {:induction false} SimplifyValueNormalises(v: Value)
    ensures NormalValue(SimplifyValue(v))
  {
    if v.Bits? {
      SimplifyValueNormalises(v.left);
      SimplifyValueNormalises(v.right);
    }
  }

  lemma JunctionNormal(conj: bool, l: BoolExpr, r: BoolExpr)
    requires Normal(l) && Normal(r)
    ensures Normal(SimplifyJunction(conj, l, r))
  {
  }

  lemma {:induction false} SimplifyNormalises(e: BoolExpr)
    ensures Normal(Simplify(e))
  {
    match e
    case True =>
    case False =>
    case Not(c) => SimplifyNormalises(c);
    case And(l, r) =>
      SimplifyNormalises(l);
      SimplifyNormalises(r);
      JunctionNormal(true, Simplify(l), Simplify(r));
    case Or(l, r) =>
      SimplifyNormalises(l);
      SimplifyNormalises(r);
      JunctionNormal(false, Simplify(l), Simplify(r));
    case Compare(_, l, r) => SimplifyValueNormalises(l); SimplifyValueNormalises(r);
  }

  lemma {:induction false} SimplifyValueFixesNormal(v: Value)
    requires NormalValue(v)
    ensures SimplifyValue(v) == v
  {
    if v.Bits? {
      SimplifyValueFixesNormal(v.left);
      SimplifyValueFixesNormal(v.right);
    }
  }

  /** Normal trees are exactly the trees the simplifier leaves alone. */
  lemma {:induction false} NormalIffFixed(e: BoolExpr)
    ensures Normal(e) <==> Simplify(e) == e
  {
    if Simplify(e) == e { SimplifyNormalises(e); }
    match e
    case True =>
    case False =>
    case Not(c) => NormalIffFixed(c);
    case And(l, r) => NormalIffFixed(l); NormalIffFixed(r);
    case Or(l, r) => NormalIffFixed(l); NormalIffFixed(r);
    case Compare(_, l, r) =>
      if Normal(e) { SimplifyValueFixesNormal(l); SimplifyValueFixesNormal(r); }
  }

  // ----- comparison width -----

  /** Every argument declared narrower than 8 bytes arrives with a zero upper half. */
  predicate NarrowValue(v: Value, d: Data) {
    match v
    case Num(_) => true
    case Var(arg, size) => size == 8 || d.args[arg] <= UINT32_MAX
    case Bits(_, l, r) => NarrowValue(l, d) && NarrowValue(r, d)
  }

  predicate NarrowArgs(e: BoolExpr, d: Data) {
    match e
    case True => true
    case False => true
    case Not(c) => NarrowArgs(c, d)
    case And(l, r) => NarrowArgs(l, d) && NarrowArgs(r, d)
    case Or(l, r) => NarrowArgs(l, d) && NarrowArgs(r, d)
    case Compare(_, l, r) => NarrowValue(l, d) && NarrowValue(r, d)
  }

  lemma {:induction false} NarrowValueFits(v: Value, d: Data)
    requires NarrowValue(v, d) && !v.Is64()
    ensures ValueOf(v, d) <= UINT32_MAX
  {
    if v.Bits? {
      NarrowValueFits(v.left, d);
      NarrowValueFits(v.right, d);
      PowersOfTwo();
      BelowPowerOfTwo(32, ValueOf(v.left, d), ValueOf(v.right, d));
    }
  }

  lemma {:induction false} SimplifyValueKeepsNarrow(v: Value, d: Data)
    requires NarrowValue(v, d)
    ensures NarrowValue(SimplifyValue(v), d)
  {
    if v.Bits? {
      SimplifyValueKeepsNarrow(v.left, d);
      SimplifyValueKeepsNarrow(v.right, d);
    }
  }

  lemma {:induction false} SimplifyKeepsNarrow(e: BoolExpr, d: Data)
    requires NarrowArgs(e, d)
    ensures NarrowArgs(Simplify(e), d)
  {
    match e
    case True =>
    case False =>
    case Not(c) => SimplifyKeepsNarrow(c, d);
    case And(l, r) => SimplifyKeepsNarrow(l, d); SimplifyKeepsNarrow(r, d);
    case Or(l, r) => SimplifyKeepsNarrow(l, d); SimplifyKeepsNarrow(r, d);
    case Compare(_, l, r) => SimplifyValueKeepsNarrow(l, d); SimplifyValueKeepsNarrow(r, d);
  }

  lemma {:induction false} WidthAgrees(e: BoolExpr, d: Data)
    requires NarrowArgs(e, d)
    ensures Holds(e, d) == Holds64(e, d)
  {
    match e
    case True =>
    case False =>
    case Not(c) => WidthAgrees(c, d);
    case And(l, r) => WidthAgrees(l, d); WidthAgrees(r, d);
    case Or(l, r) => WidthAgrees(l, d); WidthAgrees(r, d);
    case Compare(_, l, r) =>
      if !l.Is64() && !r.Is64() {
        NarrowValueFits(l, d);
        NarrowValueFits(r, d);
      }
  }

  /** What is compiled, the simplified tree under the compiled meaning, is the documented
      meaning of the original tree whenever narrow arguments have zero upper halves. */
  lemma {:induction false} CompiledMeaningIsDocumented(e: BoolExpr, d: Data)
    requires NarrowArgs(e, d)
    ensures Holds(Simplify(e), d) == Holds64(e, d)
  {
    SimplifyKeepsNarrow(e, d);
    WidthAgrees(Simplify(e), d);
    SimplifyCorrect(e, d);
  }

  /** Every comparison left in the tree has a side that is 64 bits wide. */
  predicate AllWide(e: BoolExpr) {
    match e
    case True => true
    case False => true
    case Not(c) => AllWide(c)
    case And(l, r) => AllWide(l) && AllWide(r)
    case Or(l, r) => AllWide(l) && AllWide(r)
    case Compare(_, l, r) => l.Is64() || r.Is64()
  }

  lemma {:induction false} WideNeedsNoAssumption(e: BoolExpr, d: Data)
    requires AllWide(Simplify(e))
    ensures Holds(Simplify(e), d) == Holds64(e, d)
  {
    WideMeaning(Simplify(e), d);
    SimplifyCorrect(e, d);
  }

  lemma {:induction false} WideMeaning(e: BoolExpr, d: Data)
    requires AllWide(e)
    ensures Holds(e, d) == Holds64(e, d)
  {
    match e
    case True =>
    case False =>
    case Not(c) => WideMeaning(c, d);
    case And(l, r) => WideMeaning(l, d); WideMeaning(r, d);
    case Or(l, r) => WideMeaning(l, d); WideMeaning(r, d);
    case Compare(_, _, _) =>
  }

  /** No argument of eight bytes, and no number beyond 32 bits. */
  predicate NarrowLeaves(v: Value) {
    match v
    case Num(n) => n <= 0xFFFF_FFFF
    case Var(_, size) => size != 8
    case Bits(_, l, r) => NarrowLeaves(l) && NarrowLeaves(r)
  }

  /** The data with the upper halves of all arguments cleared. */
  function Cleared(d: Data): Data {
    RawData(d.nr, d.arch, d.ip, seq(6, i requires 0 <= i < 6 => d.args[i] % 0x1_0000_0000))
  }

  /** The low word of a value without wide leaves is its value on cleared arguments. */
  lemma {:induction false} LowWordIsCleared(v: Value, d: Data)
    requires NarrowLeaves(v)
    ensures WordOf(ValueOf(v, d), Low) == ValueOf(v, Cleared(d))
  {
    if v.Bits? {
      LowWordIsCleared(v.left, d);
      LowWordIsCleared(v.right, d);
      BitwiseByWord(ValueOf(v.left, d), ValueOf(v.right, d), Low);
    }
  }

  lemma {:induction false} NarrowByLeaves(v: Value)
    ensures v.Is64() <==> !NarrowLeaves(v)
  {
    if v.Bits? {
      NarrowByLeaves(v.left);
      NarrowByLeaves(v.right);
    }
  }

  /** A comparison without wide leaves sees the arguments with their upper halves cleared; any other
      one sees them whole. */
  predicate HoldsByLeaves(e: BoolExpr, d: Data) {
    match e
    case True => true
    case False => false
    case Not(c) => !HoldsByLeaves(c, d)
    case And(l, r) => HoldsByLeaves(l, d) && HoldsByLeaves(r, d)
    case Or(l, r) => HoldsByLeaves(l, d) || HoldsByLeaves(r, d)
    case Compare(_, l, r) => Holds64(e, if NarrowLeaves(l) && NarrowLeaves(r) then Cleared(d) else d)
  }

  /** That is the compiled meaning. */
  lemma {:induction false} WidthByLeaves(e: BoolExpr, d: Data)
    ensures Holds(e, d) == HoldsByLeaves(e, d)
  {
    match e
    case True =>
    case False =>
    case Not(c) => WidthByLeaves(c, d);
    case And(l, r) => WidthByLeaves(l, d); WidthByLeaves(r, d);
    case Or(l, r) => WidthByLeaves(l, d); WidthByLeaves(r, d);
    case Compare(_, l, r) =>
      NarrowByLeaves(l);
      NarrowByLeaves(r);
      if NarrowLeaves(l) && NarrowLeaves(r) {
        LowWordIsCleared(l, d);
        LowWordIsCleared(r, d);
      }
  }

  /** The upper halves of the arguments do not matter to a comparison without wide leaves. */
  lemma {:induction false} UpperHalvesIgnored(op: CmpOp, l: Value, r: Value, d: Data, other: Data)
    requires NarrowLeaves(l) && NarrowLeaves(r)
    requires forall i :: 0 <= i < 6 ==> d.args[i] % 0x1_0000_0000 == other.args[i] % 0x1_0000_0000
    ensures Holds(Compare(op, l, r), d) == Holds(Compare(op, l, r), other)
  {
    WidthByLeaves(Compare(op, l, r), d);
    WidthByLeaves(Compare(op, l, r), other);
    assert Cleared(d).args == Cleared(other).args;
    SameArgs(l, Cleared(d), Cleared(other));
    SameArgs(r, Cleared(d), Cleared(other));
  }

  lemma {:induction false} SameArgs(v: Value, d: Data, other: Data)
    requires d.args == other.args
    ensures ValueOf(v, d) == ValueOf(v, other)
  {
    if v.Bits? {
      SameArgs(v.left, d, other);
      SameArgs(v.right, d, other);
    }
  }

  /** Arguments below 2^32 are narrow enough for every condition. */
  lemma {:induction false} SmallArgsAreNarrow(e: BoolExpr, d: Data)
    requires forall i :: 0 <= i < 6 ==> d.args[i] <= 0xFFFF_FFFF
    ensures NarrowArgs(e, d)
  {
    match e
    case True =>
    case False =>
    case Not(c) => SmallArgsAreNarrow(c, d);
    case And(l, r) => SmallArgsAreNarrow(l, d); SmallArgsAreNarrow(r, d);
    case Or(l, r) => SmallArgsAreNarrow(l, d); SmallArgsAreNarrow(r, d);
    case Compare(_, l, r) => SmallValueIsNarrow(l, d); SmallValueIsNarrow(r, d);
  }

  lemma {:induction false} SmallValueIsNarrow(v: Value, d: Data)
    requires forall i :: 0 <= i < 6 ==> d.args[i] <= 0xFFFF_FFFF
    ensures NarrowValue(v, d)
  {
    if v.Bits? {
      SmallValueIsNarrow(v.left, d);
      SmallValueIsNarrow(v.right, d);
    }
  }

  /** Without either assumption the two meanings differ, and simplification itself can
      change the compiled one: dropping the 64-bit mask narrows the comparison, which then
      holds of every number with the right low word. */
  lemma {:induction false} MaskDroppedNarrows(d: Data, n: u32)
    requires WordOf(d.args[0], Low) == n && WordOf(d.args[0], High) != 0
    ensures var e := Compare(Eq, Bits(BitAndOp, Var(0, 4), Num(UINT64_MAX)), Num(n));
            Holds(Simplify(e), d) && !Holds(e, d) && !Holds64(e, d)
  {
    var masked := Bits(BitAndOp, Var(0, 4), Num(UINT64_MAX));
    Word64Laws(d.args[0], 0);
    assert ValueOf(masked, d) == d.args[0];
    assert SimplifyValue(masked) == Var(0, 4);
    assert Simplify(Compare(Eq, masked, Num(n))) == Compare(Eq, Var(0, 4), Num(n));
  }
}
