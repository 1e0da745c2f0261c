/** How much code a condition takes at most, and how many scratch words. */
module CodeSize {
  import opened Expression

  /** A branch, with up to three instructions to bring its targets within reach. */
  const BRANCH_SIZE: nat := 4

  function Max(a: int, b: int): int {
    if a < b then b else a
  }

  /** Instructions to load one word of a value. A number is never loaded. */
  function LoadSize(v: Value): nat {
    match v
    case Num(_) => 0
    case Var(_, _) => 1
    case Bits(_, l, r) => LoadSize(l) + LoadSize(r) + if l.Num? || r.Num? then 1 else 3
  }

  /** Instructions to load one word of two values, one of them into X. */
  function OperandSize(l: Value, r: Value): nat {
    LoadSize(l) + LoadSize(r) + if l.Num? || r.Num? then 0 else 2
  }

  /** Scratch words in use while one word of a value is loaded. */
  function LoadSlots(v: Value): nat {
    if v.Bits? then Max(if v.left.Var? then 0 else 1 + LoadSlots(v.left), LoadSlots(v.right)) else 0
  }

  function OperandSlots(l: Value, r: Value): nat {
    Max(if l.Var? then 0 else 1 + LoadSlots(l), LoadSlots(r))
  }

  /** Besides those in use before, only scratch words below the bound are in use now. */
  predicate SlotsWithin(was: nat, now: nat, bound: int) {
    now <= was || now < bound
  }

  /** A comparison tests the low words, and if a side is wide the high words once or twice; only
      two of the three tests load their operands. */
  function NumberSize(l: Value, r: Value): nat {
    if l.Is64() || r.Is64() then 2 * OperandSize(l, r) + 3 * BRANCH_SIZE else OperandSize(l, r) + BRANCH_SIZE
  }

  function ExprSize(e: BoolExpr): nat {
    match e
    case True => 0
    case False => 0
    case Not(c) => ExprSize(c)
    case And(l, r) => ExprSize(l) + ExprSize(r)
    case Or(l, r) => ExprSize(l) + ExprSize(r)
    case Compare(_, l, r) => NumberSize(l, r)
  }

  function ExprSlots(e: BoolExpr): nat {
    match e
    case True => 0
    case False => 0
    case Not(c) => ExprSlots(c)
    case And(l, r) => Max(ExprSlots(l), ExprSlots(r))
    case Or(l, r) => Max(ExprSlots(l), ExprSlots(r))
    case Compare(_, l, r) => OperandSlots(l, r)
  }

  // ----- told from the size of the tree -----

  /** Nodes of a condition. */
  function Nodes(e: BoolExpr): nat {
    match e
    case True => 1
    case False => 1
    case Not(c) => 1 + Nodes(c)
    case And(l, r) => 1 + Nodes(l) + Nodes(r)
    case Or(l, r) => 1 + Nodes(l) + Nodes(r)
    case Compare(_, l, r) => 1 + l.Size() + r.Size()
  }

  /** How deep bitwise operations are nested. */
  function Nesting(v: Value): nat {
    if v.Bits? then 1 + Max(Nesting(v.left), Nesting(v.right)) else 0
  }

  /** No comparison in the condition has bitwise operations nested deeper. */
  predicate NestedWithin(e: BoolExpr, depth: nat) {
    match e
    case True => true
    case False => true
    case Not(c) => NestedWithin(c, depth)
    case And(l, r) => NestedWithin(l, depth) && NestedWithin(r, depth)
    case Or(l, r) => NestedWithin(l, depth) && NestedWithin(r, depth)
    case Compare(_, l, r) => Nesting(l) <= depth && Nesting(r) <= depth
  }

  lemma {:induction false} LoadBySize(v: Value)
    ensures LoadSize(v) + 2 <= 3 * v.Size() && LoadSlots(v) <= Nesting(v)
  {
    if v.Bits? {
      LoadBySize(v.left);
      LoadBySize(v.right);
    }
  }

  /** At most seven instructions for a node. */
  lemma {:induction false} SizeByNodes(e: BoolExpr)
    ensures ExprSize(e) <= 7 * Nodes(e)
  {
    match e
    case True =>
    case False =>
    case Not(c) => SizeByNodes(c);
    case And(l, r) => SizeByNodes(l); SizeByNodes(r);
    case Or(l, r) => SizeByNodes(l); SizeByNodes(r);
    case Compare(_, l, r) => LoadBySize(l); LoadBySize(r);
  }

  /** At most one scratch word more than bitwise operations are nested deep. */
  lemma {:induction false} SlotsByNesting(e: BoolExpr, depth: nat)
    requires NestedWithin(e, depth)
    ensures ExprSlots(e) <= depth + 1
  {
    match e
    case True =>
    case False =>
    case Not(c) => SlotsByNesting(c, depth);
    case And(l, r) => SlotsByNesting(l, depth); SlotsByNesting(r, depth);
    case Or(l, r) => SlotsByNesting(l, depth); SlotsByNesting(r, depth);
    case Compare(_, l, r) => LoadBySize(l); LoadBySize(r);
  }

  lemma {:induction false} SimplifyShrinksValue(v: Value)
    ensures SimplifyValue(v).Size() <= v.Size() && Nesting(SimplifyValue(v)) <= Nesting(v)
  {
    if v.Bits? {
      SimplifyShrinksValue(v.left);
      SimplifyShrinksValue(v.right);
    }
  }

  /** Simplifying makes no condition larger. */
  lemma {:induction false} SimplifyShrinks(e: BoolExpr, depth: nat)
    ensures Nodes(Simplify(e)) <= Nodes(e)
    ensures NestedWithin(e, depth) ==> NestedWithin(Simplify(e), depth)
  {
    match e
    case True =>
    case False =>
    case Not(c) => SimplifyShrinks(c, depth);
    case And(l, r) => SimplifyShrinks(l, depth); SimplifyShrinks(r, depth);
    case Or(l, r) => SimplifyShrinks(l, depth); SimplifyShrinks(r, depth);
    case Compare(_, l, r) => SimplifyShrinksValue(l); SimplifyShrinksValue(r);
  }
}
