/** What straight-line code that loads one word of a value does to the registers. */
module LoadCode {
  import opened Words
  import opened Bpf
  import opened Expression
  import opened Constants

  function AluOf(op: BitOp): AluOp {
    if op.BitAndOp? then AluAnd else AluOr
  }

  /** The constant operand that leaves the other operand's word unchanged. */
  function WordIdentity(op: BitOp): u32 {
    if op.BitAndOp? then UINT32_MAX else 0
  }

  /** Both operands of the bitwise node vary in this word, so the right one is kept in X. */
  predicate UsesIndex(v: Value, w: Word) {
    v.Bits? && !IsConst(v.left, w) && !IsConst(v.right, w)
  }

  /** Scratch slots below sp are untouched. */
  ghost predicate SlotsKept(sp: nat, m: map<nat, u32>, m': map<nat, u32>) {
    forall k :: k in m && k < sp ==> k in m' && m'[k] == m[k]
  }

  /** Registers r' after loading word w of v from registers r. */
  ghost predicate Loaded(v: Value, w: Word, sp: nat, r: Regs, r': Regs, d: Data) {
    && r'.a == WordVal(v, w, d)
    && SlotsKept(sp, r.m, r'.m)
    && (v.Var? ==> r'.x == r.x)
    && (UsesIndex(v, w) ==> r'.x == WordVal(v.right, w, d))
  }

  /** The code from buf0 up to buf loads word w of v and then falls into buf0. */
  ghost predicate LoadsOn(buf0: seq<Instr>, buf: seq<Instr>, v: Value, w: Word, sp: nat, r: Regs, d: Data) {
    exists r' :: Loaded(v, w, sp, r, r', d)
                 && Run(AsMeant, buf, |buf| - 1, r, d) == Run(AsMeant, buf0, |buf0| - 1, r', d)
  }

  ghost predicate Loads(buf0: seq<Instr>, buf: seq<Instr>, v: Value, w: Word, sp: nat) {
    forall r, d :: LoadsOn(buf0, buf, v, w, sp, r, d)
  }

  /** Registers r' with word w of one value in A and of another in X. */
  ghost predicate PairLoaded(l: Value, x: Value, w: Word, sp: nat, r: Regs, r': Regs, d: Data) {
    && r'.a == WordVal(l, w, d) && r'.x == WordVal(x, w, d) && SlotsKept(sp, r.m, r'.m)
  }

  ghost predicate PairLoadsOn(buf0: seq<Instr>, buf: seq<Instr>, l: Value, x: Value, w: Word, sp: nat,
                              r: Regs, d: Data) {
    exists r' :: PairLoaded(l, x, w, sp, r, r', d)
                 && Run(AsMeant, buf, |buf| - 1, r, d) == Run(AsMeant, buf0, |buf0| - 1, r', d)
  }

  ghost predicate PairLoads(buf0: seq<Instr>, buf: seq<Instr>, l: Value, x: Value, w: Word, sp: nat) {
    forall r, d :: PairLoadsOn(buf0, buf, l, x, w, sp, r, d)
  }

  lemma {:induction false} FallsInto(how: Reading, buf: seq<Instr>, instr: Instr, r: Regs, d: Data)
    requires Exec(instr, r, d).Some?
    ensures Run(how, buf + [instr], |buf|, r, d) == Run(how, buf, |buf| - 1, Exec(instr, r, d).value, d)
  {
    RunExtends(how, buf, buf + [instr], |buf| - 1, Exec(instr, r, d).value, d);
  }

  lemma VarLoads(buf0: seq<Instr>, v: Value, w: Word, sp: nat)
    requires v.Var?
    ensures Loads(buf0, buf0 + [LdAbs(ArgOffset(v.arg, w))], v, w, sp)
  {
    var inst := LdAbs(ArgOffset(v.arg, w));
    forall r, d ensures LoadsOn(buf0, buf0 + [inst], v, w, sp, r, d) {
      FallsInto(AsMeant, buf0, inst, r, d);
      assert Loaded(v, w, sp, r, r.(a := WordVal(v, w, d)), d);
    }
  }

  /** The word of a node with an operand that is constant in it. */
  lemma {:induction false} ConstOperandWord(v: Value, varying: Value, c: u32, w: Word, d: Data)
    requires v.Bits?
    requires (varying == v.left && WordConst(v.right, w) == Some(c))
          || (varying == v.right && WordConst(v.left, w) == Some(c))
    ensures WordVal(v, w, d) == Alu(AluOf(v.op), WordVal(varying, w, d), c)
    ensures c == WordIdentity(v.op) ==> WordVal(v, w, d) == WordVal(varying, w, d)
  {
    var a := WordVal(varying, w, d);
    BitsByWord(v, w, d);
    Word32Laws(a, c);
    Word32Laws(c, a);
    if varying == v.left && WordConst(v.right, w) == Some(c) {
      WordConstSound(v.right, w, d);
    } else {
      WordConstSound(v.left, w, d);
    }
  }

  /** One operand is constant in this word: combine it with the loaded other operand, unless
      that would change nothing. */
  lemma {:induction false} ConstOperandLoads(buf0: seq<Instr>, buf: seq<Instr>, v: Value, varying: Value, c: u32,
                                             w: Word, sp: nat)
    requires v.Bits?
    requires (varying == v.left && WordConst(v.right, w) == Some(c))
          || (varying == v.right && WordConst(v.left, w) == Some(c))
    requires Loads(if c == WordIdentity(v.op) then buf0 else buf0 + [AluK(AluOf(v.op), c)],
                   buf, varying, w, sp)
    ensures Loads(buf0, buf, v, w, sp)
  {
    var inst := AluK(AluOf(v.op), c);
    var buf1 := if c == WordIdentity(v.op) then buf0 else buf0 + [inst];
    forall r, d ensures LoadsOn(buf0, buf, v, w, sp, r, d) {
      assert LoadsOn(buf1, buf, varying, w, sp, r, d);
      var r1 :| Loaded(varying, w, sp, r, r1, d)
                && Run(AsMeant, buf, |buf| - 1, r, d) == Run(AsMeant, buf1, |buf1| - 1, r1, d);
      ConstOperandWord(v, varying, c, w, d);
      if c == WordIdentity(v.op) {
        assert Loaded(v, w, sp, r, r1, d);
      } else {
        FallsInto(AsMeant, buf0, inst, r1, d);
        assert Loaded(v, w, sp, r, Exec(inst, r1, d).value, d);
      }
    }
  }

  lemma PairThenAluLoads(buf0: seq<Instr>, buf: seq<Instr>, v: Value, w: Word, sp: nat)
    requires UsesIndex(v, w)
    requires PairLoads(buf0 + [AluX(AluOf(v.op))], buf, v.left, v.right, w, sp)
    ensures Loads(buf0, buf, v, w, sp)
  {
    var inst := AluX(AluOf(v.op));
    forall r, d ensures LoadsOn(buf0, buf, v, w, sp, r, d) {
      assert PairLoadsOn(buf0 + [inst], buf, v.left, v.right, w, sp, r, d);
      var r1 :| PairLoaded(v.left, v.right, w, sp, r, r1, d)
                && Run(AsMeant, buf, |buf| - 1, r, d) == Run(AsMeant, buf0 + [inst], |buf0|, r1, d);
      FallsInto(AsMeant, buf0, inst, r1, d);
      BitsByWord(v, w, d);
      assert Loaded(v, w, sp, r, Exec(inst, r1, d).value, d);
    }
  }

  /** Right operand into a scratch slot, left operand into A, slot back into X. */
  lemma StackPairLoads(b0: seq<Instr>, b1: seq<Instr>, b2: seq<Instr>, l: Value, x: Value, w: Word, sp: nat)
    requires Loads(b0 + [LdxMem(sp)], b1, l, w, sp + 1)
    requires Loads(b1 + [St(sp)], b2, x, w, sp)
    ensures PairLoads(b0, b2, l, x, w, sp)
  {
    forall r, d ensures PairLoadsOn(b0, b2, l, x, w, sp, r, d) {
      assert LoadsOn(b1 + [St(sp)], b2, x, w, sp, r, d);
      var r1 :| Loaded(x, w, sp, r, r1, d)
                && Run(AsMeant, b2, |b2| - 1, r, d) == Run(AsMeant, b1 + [St(sp)], |b1|, r1, d);
      var r2 := Exec(St(sp), r1, d).value;
      FallsInto(AsMeant, b1, St(sp), r1, d);
      assert LoadsOn(b0 + [LdxMem(sp)], b1, l, w, sp + 1, r2, d);
      var r3 :| Loaded(l, w, sp + 1, r2, r3, d)
                && Run(AsMeant, b1, |b1| - 1, r2, d) == Run(AsMeant, b0 + [LdxMem(sp)], |b0|, r3, d);
      assert sp in r2.m && r3.m[sp] == r1.a;
      FallsInto(AsMeant, b0, LdxMem(sp), r3, d);
      assert PairLoaded(l, x, w, sp, r, Exec(LdxMem(sp), r3, d).value, d);
    }
  }

  /** A variable on the left loads without touching X, so X can hold the right operand. */
  lemma IndexPairLoads(b0: seq<Instr>, b1: seq<Instr>, b2: seq<Instr>, l: Value, x: Value, w: Word, sp: nat)
    requires l.Var?
    requires Loads(b0, b1, l, w, sp)
    requires Loads(b1 + [Tax], b2, x, w, sp)
    ensures PairLoads(b0, b2, l, x, w, sp)
  {
    forall r, d ensures PairLoadsOn(b0, b2, l, x, w, sp, r, d) {
      assert LoadsOn(b1 + [Tax], b2, x, w, sp, r, d);
      var r1 :| Loaded(x, w, sp, r, r1, d) && Run(AsMeant, b2, |b2| - 1, r, d) == Run(AsMeant, b1 + [Tax], |b1|, r1, d);
      FallsInto(AsMeant, b1, Tax, r1, d);
      var r2 := Exec(Tax, r1, d).value;
      assert LoadsOn(b0, b1, l, w, sp, r2, d);
      var r3 :| Loaded(l, w, sp, r2, r3, d) && Run(AsMeant, b1, |b1| - 1, r2, d) == Run(AsMeant, b0, |b0| - 1, r3, d);
      assert PairLoaded(l, x, w, sp, r, r3, d);
    }
  }
}
