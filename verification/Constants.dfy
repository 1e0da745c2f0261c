/** Word constants: which 32-bit words of a value are the same on every input. The compiler
    caches them in the tree before it generates code for a condition. */
module Constants {
  import opened Words
  import opened Bpf
  import opened Expression

  /** The cached word of a node; None when the node is not marked constant. */
  function WordConst(v: Value, w: Word): Option<u32> {
    match v
    case Num(n) => Some(WordOf(n, w))
    case Var(_, _) => None
    case Bits(op, l, r) =>
      var lc, rc := WordConst(l, w), WordConst(r, w);
      if lc.Some? && rc.Some? then
        Some(if op.BitAndOp? then And32(lc.value, rc.value) else Or32(lc.value, rc.value))
      else
        var clobber: u32 := if op.BitAndOp? then 0 else UINT32_MAX;
        // at most one side is constant here
        var c := if lc.Some? then lc else rc;
        if c == Some(clobber) then Some(clobber) else None
  }

  predicate IsConst(v: Value, w: Word) {
    WordConst(v, w).Some?
  }

  /** The word of a value on an input. */
  function WordVal(v: Value, w: Word, d: Data): u32 {
    WordOf(ValueOf(v, d), w)
  }

  lemma BitsByWord(v: Value, w: Word, d: Data)
    requires v.Bits?
    ensures WordVal(v, w, d) == Alu(if v.op.BitAndOp? then AluAnd else AluOr,
                                    WordVal(v.left, w, d), WordVal(v.right, w, d))
  {
    BitwiseByWord(ValueOf(v.left, d), ValueOf(v.right, d), w);
  }

  /** A word marked constant has its cached value on every input, whatever the other word
      does. */
  lemma {:induction false} WordConstSound(v: Value, w: Word, d: Data)
    requires IsConst(v, w)
    ensures WordVal(v, w, d) == WordConst(v, w).value
  {
    if v.Bits? {
      if IsConst(v.left, w) { WordConstSound(v.left, w, d); }
      if IsConst(v.right, w) { WordConstSound(v.right, w, d); }
      BitsByWord(v, w, d);
      Word32Laws(WordVal(v.left, w, d), WordVal(v.right, w, d));
      Word32Laws(WordVal(v.right, w, d), WordVal(v.left, w, d));
    }
  }

  /** Only bitwise nodes and variables are left unmarked, and an unmarked bitwise node has an
      unmarked child: the load generator always finds an operand to load. */
  lemma UnmarkedHasUnmarkedChild(v: Value, w: Word)
    requires !IsConst(v, w)
    ensures v.Var? || (v.Bits? && (!IsConst(v.left, w) || !IsConst(v.right, w)))
  {
  }
}
