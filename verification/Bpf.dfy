/** The target language: the BPF instructions the compiler emits, the data a filter reads,
    and the meaning of a buffer of instructions that is still in emission order. */
module Bpf {
  import opened Words

  type u8 = x: int | 0 <= x < 256

  const BPF_MEMWORDS: int := 16
  const SYSCALL_MAX_ARGS: int := 6
  const SECCOMP_DATA_SIZE: int := 64
  const OFFSET_NR: u32 := 0
  const OFFSET_ARCH: u32 := 4

  datatype Option<+T> = None | Some(value: T)

  datatype Cond = Jeq | Jge | Jgt | Jset

  datatype AluOp = AluAnd | AluOr

  datatype Instr =
    | LdAbs(k: u32)                                // A := the data word at byte offset k
    | LdxMem(slot: nat)                            // X := M[slot]
    | St(slot: nat)                                // M[slot] := A
    | Tax                                          // X := A
    | AluK(op: AluOp, k: u32)                      // A := A op k
    | AluX(op: AluOp)                              // A := A op X
    | Ja(skip: nat)                                // skip that many instructions
    | JmpK(cond: Cond, k: u32, jt: u8, jf: u8)     // compare A with k, skip jt or jf
    | JmpX(cond: Cond, jt: u8, jf: u8)             // compare A with X, skip jt or jf
    | Ret(code: u32)
  {
    predicate IsBranch() { JmpK? || JmpX? }

    /** A branch whose two sides lead to the same instruction. */
    predicate IsBlind() { IsBranch() && jt == jf }
  }

  /** What a filter is given: the system call number, the audit architecture, the
      instruction pointer and six 64-bit arguments. */
  datatype RawData = RawData(nr: u32, arch: u32, ip: u64, args: seq<u64>)
  type Data = d: RawData | |d.args| == SYSCALL_MAX_ARGS
    witness RawData(0, 0, 0, [0, 0, 0, 0, 0, 0])

  /** Byte offset of a word of an argument on a little-endian machine. */
  function ArgOffset(arg: nat, w: Word): u32
    requires arg < SYSCALL_MAX_ARGS
  {
    16 + 8 * arg + (if w.High? then 4 else 0)
  }

  /** The aligned 32-bit word at a byte offset; None for a misaligned or outside read. */
  function LoadWord(d: Data, k: u32): Option<u32> {
    if k % 4 != 0 || k + 4 > SECCOMP_DATA_SIZE then None
    else if k == OFFSET_NR then Some(d.nr)
    else if k == OFFSET_ARCH then Some(d.arch)
    else
      var x: u64 := if k < 16 then d.ip else d.args[(k - 16) / 8];
      Some(WordOf(x, if k % 8 == 4 then High else Low))
  }

  /** The data as memory holds it: sixteen words, of each 64-bit number the low one first. */
  function Image(d: Data): (image: seq<u32>)
    ensures |image| == 16
  {
    [d.nr, d.arch, d.ip % 0x1_0000_0000, d.ip / 0x1_0000_0000]
    + seq(12, i requires 0 <= i < 12 =>
        if i % 2 == 0 then d.args[i / 2] % 0x1_0000_0000 else d.args[i / 2] / 0x1_0000_0000)
  }

  /** A read at an aligned offset inside the data gets the word that is there; any other one fails. */
  lemma ReadsImage(d: Data, k: u32)
    ensures LoadWord(d, k) == if k % 4 == 0 && k <= 60 then Some(Image(d)[k / 4]) else None
  {
    if k % 4 == 0 && 16 <= k <= 60 {
      var i := k / 4 - 4;
      assert Image(d)[k / 4] == if i % 2 == 0 then d.args[i / 2] % 0x1_0000_0000 else d.args[i / 2] / 0x1_0000_0000;
      assert (k - 16) / 8 == i / 2 && (k % 8 == 4 <==> i % 2 == 1);
    }
  }

  /** Where the system call number, the architecture, the instruction pointer and the arguments are. */
  lemma DataLayout(d: Data, arg: nat)
    requires arg < 6
    ensures LoadWord(d, 0) == Some(d.nr) && LoadWord(d, 4) == Some(d.arch)
    ensures LoadWord(d, 8) == Some(d.ip % 0x1_0000_0000) && LoadWord(d, 12) == Some(d.ip / 0x1_0000_0000)
    ensures LoadWord(d, 16 + 8 * arg) == Some(d.args[arg] % 0x1_0000_0000)
    ensures LoadWord(d, 20 + 8 * arg) == Some(d.args[arg] / 0x1_0000_0000)
  {
    ReadsImage(d, 0);
    ReadsImage(d, 4);
    ReadsImage(d, 8);
    ReadsImage(d, 12);
    ReadsImage(d, 16 + 8 * arg);
    ReadsImage(d, 20 + 8 * arg);
  }

  /** Accumulator, index register, and the scratch slots written so far. */
  datatype Regs = Regs(a: u32, x: u32, m: map<nat, u32>)

  datatype Outcome = Returned(code: u32) | Stuck

  function Test(c: Cond, a: u32, b: u32): bool {
    match c
    case Jeq => a == b
    case Jge => a >= b
    case Jgt => a > b
    case Jset => And32(a, b) != 0
  }

  function Alu(op: AluOp, a: u32, b: u32): u32 {
    match op
    case AluAnd => And32(a, b)
    case AluOr => Or32(a, b)
  }

  /** Effect of an instruction that neither jumps nor returns. Reading a scratch slot that
      has not been written is an error. */
  function Exec(instr: Instr, r: Regs, d: Data): Option<Regs> {
    match instr
    case LdAbs(k) => (match LoadWord(d, k) case None => None case Some(v) => Some(r.(a := v)))
    case LdxMem(k) => if k in r.m then Some(r.(x := r.m[k])) else None
    case St(k) => Some(r.(m := r.m[k := r.a]))
    case Tax => Some(r.(x := r.a))
    case AluK(op, k) => Some(r.(a := Alu(op, r.a, k)))
    case AluX(op) => Some(r.(a := Alu(op, r.a, r.x)))
    case _ => None
  }

  /** How many instructions a jump skips. */
  function Skip(instr: Instr, r: Regs): nat
    requires instr.Ja? || instr.IsBranch()
  {
    match instr
    case Ja(k) => k
    case JmpK(c, k, jt, jf) => if Test(c, r.a, k) then jt else jf
    case JmpX(c, jt, jf) => if Test(c, r.a, r.x) then jt else jf
  }

  /** How a branch with equal offsets is read: as it is; or as it was meant, with a second offset
      that was 256 more before it was cut to eight bits. */
  datatype Reading = AsIs | AsMeant

  /** Control comes to a branch with equal offsets, and the test fails. */
  predicate Misses(instr: Instr, r: Regs) {
    match instr
    case JmpK(c, k, jt, jf) => jt == jf && !Test(c, r.a, k)
    case JmpX(c, jt, jf) => jt == jf && !Test(c, r.a, r.x)
    case _ => false
  }

  function SkipAs(how: Reading, instr: Instr, r: Regs): nat
    requires instr.Ja? || instr.IsBranch()
  {
    Skip(instr, r) + if how.AsMeant? && Misses(instr, r) then 256 else 0
  }

  /** The compiler emits code backwards: the instruction executed after buf[i] is buf[i - 1],
      and a jump skips towards lower indices. */
  function Run(how: Reading, buf: seq<Instr>, i: int, r: Regs, d: Data): Outcome
    decreases i
  {
    if i < 0 || i >= |buf| then Stuck
    else if buf[i].Ret? then Returned(buf[i].code)
    else if buf[i].Ja? || buf[i].IsBranch() then Run(how, buf, i - 1 - SkipAs(how, buf[i], r), r, d)
    else
      match Exec(buf[i], r, d)
      case None => Stuck
      case Some(r') => Run(how, buf, i - 1, r', d)
  }

  /** What a whole buffer does, from the instruction emitted last. */
  function RunAll(how: Reading, buf: seq<Instr>, r: Regs, d: Data): Outcome {
    Run(how, buf, |buf| - 1, r, d)
  }

  /** Emitting more instructions does not disturb the code already there. */
  lemma {:induction false} RunExtends(how: Reading, buf: seq<Instr>, more: seq<Instr>, i: int, r: Regs, d: Data)
    requires i < |buf| && buf <= more
    ensures Run(how, more, i, r, d) == Run(how, buf, i, r, d)
    decreases i
  {
    if 0 <= i {
      assert more[i] == buf[i];
      if buf[i].Ja? || buf[i].IsBranch() {
        RunExtends(how, buf, more, i - 1 - SkipAs(how, buf[i], r), r, d);
      } else if Exec(buf[i], r, d).Some? {
        RunExtends(how, buf, more, i - 1, Exec(buf[i], r, d).value, d);
      }
    }
  }

  /** Execution order from emission order. */
  function Reverse(s: seq<Instr>): (r: seq<Instr>)
    ensures |r| == |s|
  {
    seq(|s|, i requires 0 <= i < |s| => s[|s| - 1 - i])
  }
}
