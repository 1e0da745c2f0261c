/** The BPF interpreter: a loop that steps a program counter forwards over a finished
    program, with sixteen scratch words. */
module Interpreter {
  import opened Words
  import opened Bpf

  /** The interpreter's meaning of a program from a program counter on. The counter is a
      32-bit word, so a jump that wraps around is caught as not going forward. */
  function Interpret(how: Reading, prog: seq<Instr>, pc: u32, r: Regs, d: Data): Outcome
    decreases |prog| - pc
  {
    if pc >= |prog| || !SlotInRange(prog[pc]) then Stuck
    else if prog[pc].Ret? then Returned(prog[pc].code)
    else
      var jump := prog[pc].Ja? || prog[pc].IsBranch();
      var next := if jump then (pc + 1 + SkipAs(how, prog[pc], r)) % TWO_32 else (pc + 1) % TWO_32;
      var after := if jump then Some(r) else Exec(prog[pc], r, d);
      if after.None? || next <= pc then Stuck
      else Interpret(how, prog, next, after.value, d)
  }

  /** The run comes to a branch with equal offsets whose test fails. */
  predicate Misled(prog: seq<Instr>, pc: u32, r: Regs, d: Data)
    decreases |prog| - pc
  {
    if pc >= |prog| || !SlotInRange(prog[pc]) || prog[pc].Ret? then false
    else if Misses(prog[pc], r) then true
    else
      var jump := prog[pc].Ja? || prog[pc].IsBranch();
      var next := if jump then (pc + 1 + Skip(prog[pc], r)) % TWO_32 else (pc + 1) % TWO_32;
      var after := if jump then Some(r) else Exec(prog[pc], r, d);
      after.Some? && pc < next && Misled(prog, next, after.value, d)
  }

  /** Any other run does what it was meant to do. */
  lemma {:induction false} RunsAsMeant(prog: seq<Instr>, pc: u32, r: Regs, d: Data)
    requires !Misled(prog, pc, r, d)
    ensures Interpret(AsIs, prog, pc, r, d) == Interpret(AsMeant, prog, pc, r, d)
    decreases |prog| - pc
  {
    if pc < |prog| && SlotInRange(prog[pc]) && !prog[pc].Ret? {
      var jump := prog[pc].Ja? || prog[pc].IsBranch();
      var next := if jump then (pc + 1 + Skip(prog[pc], r)) % TWO_32 else (pc + 1) % TWO_32;
      var after := if jump then Some(r) else Exec(prog[pc], r, d);
      if after.Some? && pc < next { RunsAsMeant(prog, next, after.value, d); }
    }
  }

  /** Without such a branch no run is misled. */
  lemma {:induction false} NeverMisled(prog: seq<Instr>, pc: u32, r: Regs, d: Data)
    requires forall i :: 0 <= i < |prog| ==> !prog[i].IsBlind()
    ensures !Misled(prog, pc, r, d)
    decreases |prog| - pc
  {
    if pc < |prog| && SlotInRange(prog[pc]) && !prog[pc].Ret? {
      assert !prog[pc].IsBlind();
      var jump := prog[pc].Ja? || prog[pc].IsBranch();
      var next := if jump then (pc + 1 + Skip(prog[pc], r)) % TWO_32 else (pc + 1) % TWO_32;
      var after := if jump then Some(r) else Exec(prog[pc], r, d);
      if after.Some? && pc < next { NeverMisled(prog, next, after.value, d); }
    }
  }

  predicate SlotInRange(instr: Instr) {
    instr.LdxMem? || instr.St? ==> instr.slot < BPF_MEMWORDS
  }

  /** One step, when control goes on at pc + 1 + skip. */
  lemma InterpretStep(how: Reading, prog: seq<Instr>, pc: u32, skip: nat, r: Regs, r': Regs, d: Data)
    requires pc < |prog| <= TWO_32 && SlotInRange(prog[pc]) && !prog[pc].Ret?
    requires if prog[pc].Ja? || prog[pc].IsBranch() then skip == SkipAs(how, prog[pc], r) < TWO_32 && r' == r
             else skip == 0 && Exec(prog[pc], r, d) == Some(r')
    ensures Interpret(how, prog, pc, r, d)
         == if pc + 1 + skip < |prog| then Interpret(how, prog, pc + 1 + skip, r', d) else Stuck
  {
    if pc + 1 + skip < TWO_32 {
      assert (pc + 1 + skip) % TWO_32 == pc + 1 + skip;
    } else {
      assert (pc + 1 + skip) % TWO_32 == pc + 1 + skip - TWO_32 <= pc;
    }
  }

  /** Reversing the emission buffer turns its backward meaning into the interpreter's
      forward one, as long as every scratch slot exists. */
  lemma {:induction false} InterpretReversed(how: Reading, buf: seq<Instr>, i: nat, r: Regs, d: Data)
    requires i < |buf| < TWO_32
    requires forall j :: 0 <= j < |buf| ==> SlotInRange(buf[j])
    requires forall j :: 0 <= j < |buf| && buf[j].Ja? ==> buf[j].skip < TWO_32
    ensures Interpret(how, Reverse(buf), |buf| - 1 - i, r, d) == Run(how, buf, i, r, d)
  {
    var prog, pc := Reverse(buf), |buf| - 1 - i;
    assert prog[pc] == buf[i];
    if buf[i].Ja? || buf[i].IsBranch() {
      var skip := SkipAs(how, buf[i], r);
      InterpretStep(how, prog, pc, skip, r, r, d);
      if skip < i { InterpretReversed(how, buf, i - 1 - skip, r, d); }
    } else if !buf[i].Ret? && Exec(buf[i], r, d).Some? {
      var r' := Exec(buf[i], r, d).value;
      InterpretStep(how, prog, pc, 0, r, r', d);
      if 0 < i { InterpretReversed(how, buf, i - 1, r', d); }
    }
  }

  /** Slots 0 to 15 hold what was stored in them; any other store fails. */
  lemma StoredReadsBack(how: Reading, prog: seq<Instr>, pc: u32, slot: nat, r: Regs, d: Data)
    requires pc + 2 < |prog| <= TWO_32 && prog[pc] == St(slot) && prog[pc + 1] == LdxMem(slot)
    ensures Interpret(how, prog, pc, r, d)
         == if slot <= 15 then Interpret(how, prog, pc + 2, r.(x := r.a, m := r.m[slot := r.a]), d) else Stuck
  {
    if slot <= 15 {
      var stored := r.(m := r.m[slot := r.a]);
      InterpretStep(how, prog, pc, 0, r, stored, d);
      InterpretStep(how, prog, pc + 1, 0, stored, stored.(x := r.a), d);
    }
  }

  /** A program that cannot go wrong: jumps land inside it, reads are aligned and inside the
      data, slots exist, and control cannot run off the end. */
  predicate SafeAt(prog: seq<Instr>, pc: nat)
    requires pc < |prog|
  {
    match prog[pc]
    case Ret(_) => true
    case Ja(k) => pc + 1 + k < |prog|
    case JmpK(_, _, jt, jf) => pc + 1 + jt < |prog| && pc + 1 + jf < |prog|
    case JmpX(_, jt, jf) => pc + 1 + jt < |prog| && pc + 1 + jf < |prog|
    case LdAbs(k) => pc + 1 < |prog| && k % 4 == 0 && k + 4 <= SECCOMP_DATA_SIZE
    case _ => pc + 1 < |prog| && SlotInRange(prog[pc])
  }

  predicate Safe(prog: seq<Instr>) {
    0 < |prog| < TWO_32 && forall pc :: 0 <= pc < |prog| ==> SafeAt(prog, pc)
  }

  /** A safe program returns on every input, from any registers and any sixteen scratch
      words. */
  lemma {:induction false} SafeProgramReturns(prog: seq<Instr>, pc: u32, r: Regs, d: Data)
    requires Safe(prog) && pc < |prog|
    requires forall k :: 0 <= k < BPF_MEMWORDS ==> k in r.m
    ensures Interpret(AsIs, prog, pc, r, d).Returned?
    decreases |prog| - pc
  {
    assert SafeAt(prog, pc);
    if prog[pc].Ja? || prog[pc].IsBranch() {
      SafeProgramReturns(prog, pc + 1 + Skip(prog[pc], r), r, d);
    } else if !prog[pc].Ret? {
      SafeProgramReturns(prog, pc + 1, Exec(prog[pc], r, d).value, d);
    }
  }

  /** The interpreter context. Registers and scratch memory start with arbitrary contents. */
  class Context {
    var accumulator: u32
    var xReg: u32
    const mem: array<u32>
    var pc: u32
    var hasResult: bool
    var result: u32

    constructor (a: u32, x: u32, m: array<u32>)
      requires m.Length == BPF_MEMWORDS
      ensures Valid() && mem == m && State().a == a && State().x == x
    {
      accumulator, xReg, mem := a, x, m;
      pc, hasResult, result := 0, false, 0;
    }

    ghost predicate Valid()
      reads this
    {
      mem.Length == BPF_MEMWORDS
    }

    ghost function State(): Regs
      requires Valid()
      reads this, mem
    {
      Regs(accumulator, xReg, map k: nat | k < BPF_MEMWORDS :: mem[k])
    }

    /** One instruction; false means an interpreter error. */
    method InterpretInstruction(inst: Instr, d: Data) returns (ok: bool)
      requires Valid() && !hasResult
      modifies this, mem
      ensures Valid()
      ensures inst.Ret? ==> ok && hasResult && result == inst.code
      ensures !inst.Ret? ==> !hasResult
      ensures inst.Ja? || inst.IsBranch() ==>
                var next := (old(pc) + 1 + Skip(inst, old(State()))) % TWO_32;
                State() == old(State()) && ok == (next > old(pc)) && (ok ==> pc == next)
      ensures !(inst.Ret? || inst.Ja? || inst.IsBranch()) ==>
                var next := (old(pc) + 1) % TWO_32;
                var after := Exec(inst, old(State()), d);
                && ok == (SlotInRange(inst) && after.Some? && next > old(pc))
                && (ok ==> pc == next && State() == after.value)
      ensures inst.LdAbs? && ok ==> inst.k % 4 == 0 && inst.k <= 60 && accumulator == Image(d)[inst.k / 4]
    {
      var nextPc: u32 := (pc + 1) % TWO_32;
      match inst {
        case LdAbs(k) =>
          var word := LoadWord(d, k);
          ReadsImage(d, k);
          if word.None? { return false; }
          accumulator := word.value;
        case LdxMem(k) =>
          if k >= BPF_MEMWORDS { return false; }
          xReg := mem[k];
        case St(k) =>
          if k >= BPF_MEMWORDS { return false; }
          mem[k] := accumulator;
        case Tax =>
          xReg := accumulator;
        case AluK(op, k) =>
          accumulator := Alu(op, accumulator, k);
        case AluX(op) =>
          accumulator := Alu(op, accumulator, xReg);
        case Ja(k) =>
          nextPc := (nextPc + k) % TWO_32;
        case JmpK(c, k, jt, jf) =>
          nextPc := (nextPc + if Test(c, accumulator, k) then jt else jf) % TWO_32;
        case JmpX(c, jt, jf) =>
          nextPc := (nextPc + if Test(c, accumulator, xReg) then jt else jf) % TWO_32;
        case Ret(k) =>
          hasResult, result := true, k;
          return true;
      }
      if nextPc <= pc { return false; }
      pc := nextPc;
      return true;
    }

    /** The interpreter loop computes the program's meaning from the registers and scratch
        words it started with; false means an interpreter error. */
    method Run(prog: seq<Instr>, d: Data) returns (ok: bool)
      requires Valid()
      modifies this, mem
      ensures Valid()
      ensures Interpret(AsIs, prog, 0, old(State()), d) == if ok then Returned(result) else Stuck
    {
      pc, hasResult := 0, false;
      assert State() == old(State());
      while !hasResult
        invariant Valid()
        invariant Interpret(AsIs, prog, 0, old(State()), d)
               == if hasResult then Returned(result) else Interpret(AsIs, prog, pc, State(), d)
        decreases !hasResult, |prog| - pc
      {
        if pc >= |prog| { return false; }
        ok := InterpretInstruction(prog[pc], d);
        if !ok { return false; }
      }
      return true;
    }
  }
}
