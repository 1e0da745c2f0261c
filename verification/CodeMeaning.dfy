/** What code locations mean while the compiler is still emitting. A location is an index
    into the emission buffer, or the negation of an action. */
module CodeMeaning {
  import opened Actions
  import opened Bpf

  const MAX_JUMP: int := 255

  /** A location code may continue at: an action, or an instruction other than a return. */
  predicate LocOk(buf: seq<Instr>, loc: int) {
    (loc < 0 && ValidAction(-loc)) || (0 <= loc < |buf| && !buf[loc].Ret?)
  }

  /** What continuing at a location does. */
  function OutcomeAs(how: Reading, buf: seq<Instr>, loc: int, r: Regs, d: Data): Outcome
    requires loc < 0 ==> ValidAction(-loc)
  {
    if loc < 0 then Returned(ActionToBpf(-loc)) else Run(how, buf, loc, r, d)
  }

  /** What it was meant to do. */
  function OutcomeAt(buf: seq<Instr>, loc: int, r: Regs, d: Data): Outcome
    requires loc < 0 ==> ValidAction(-loc)
  {
    OutcomeAs(AsMeant, buf, loc, r, d)
  }

  /** On input d the location has this outcome, whatever the registers and scratch words. */
  ghost predicate Yields(buf: seq<Instr>, loc: int, d: Data, res: Outcome)
    requires loc < 0 ==> ValidAction(-loc)
  {
    forall r :: OutcomeAt(buf, loc, r, d) == res
  }

  /** No branch in the buffer has lost a jump offset (see AddJump). */
  predicate Sighted(buf: seq<Instr>) {
    forall i :: 0 <= i < |buf| ==> !buf[i].IsBlind()
  }

  const KILL_RETURN := Ret(SECCOMP_RET_KILL)

  predicate HoldsKill(buf: seq<Instr>) {
    KILL_RETURN in buf
  }

  lemma OtherReturn(action: int)
    requires ValidAction(action)
    ensures Ret(ActionToBpf(action)) == KILL_RETURN <==> action == ACTION_KILL
  {
    if Ret(ActionToBpf(action)) == KILL_RETURN { ActionToBpfInjective(action, ACTION_KILL); }
  }

  /** One of the targets is KILL. */
  predicate ToKill(t: int, f: int) {
    t == -ACTION_KILL || f == -ACTION_KILL
  }

  /** Since b0 no offset has been lost. */
  predicate StaysSighted(b0: seq<Instr>, b: seq<Instr>) {
    forall i :: |b0| <= i < |b| ==> !b[i].IsBlind()
  }

  /** Since b0 no offset has been lost, except perhaps by the last instruction. */
  predicate SightedBelow(b0: seq<Instr>, b: seq<Instr>) {
    forall i :: |b0| <= i < |b| - 1 ==> !b[i].IsBlind()
  }

  lemma BranchStays(b0: seq<Instr>, b1: seq<Instr>, b2: seq<Instr>)
    requires b1 <= b2 && |b2| == |b1| + 1 && StaysSighted(b0, b1)
    ensures SightedBelow(b0, b2)
    ensures |b0| <= |b1| && !b2[|b1|].IsBlind() ==> StaysSighted(b0, b2)
  {
    forall i | |b0| <= i < |b1| ensures !b2[i].IsBlind() {
      assert b2[i] == b1[i];
    }
  }

  lemma StaysSightedOn(b0: seq<Instr>, b1: seq<Instr>, b2: seq<Instr>)
    requires b1 <= b2 && StaysSighted(b0, b1) && StaysSighted(b1, b2)
    ensures StaysSighted(b0, b2)
  {
    forall i | |b0| <= i < |b2| ensures !b2[i].IsBlind() {
      if i < |b1| { assert b2[i] == b1[i]; }
    }
  }

  lemma SightedOn(b0: seq<Instr>, b: seq<Instr>)
    requires b0 <= b && Sighted(b0) && StaysSighted(b0, b)
    ensures Sighted(b)
  {
    forall i | 0 <= i < |b| ensures !b[i].IsBlind() {
      if i < |b0| { assert b[i] == b0[i]; }
    }
  }

  /** Since b0 no offset has been lost and no return of KILL been emitted. */
  predicate Harmless(b0: seq<Instr>, b: seq<Instr>) {
    StaysSighted(b0, b) && (HoldsKill(b) <==> HoldsKill(b0))
  }

  function Pick(b: bool, t: int, f: int): int {
    if b then t else f
  }

  lemma OutcomeExtends(how: Reading, buf: seq<Instr>, more: seq<Instr>, loc: int, r: Regs, d: Data)
    requires LocOk(buf, loc) && buf <= more
    ensures OutcomeAs(how, more, loc, r, d) == OutcomeAs(how, buf, loc, r, d)
  {
    if 0 <= loc { RunExtends(how, buf, more, loc, r, d); }
  }

  lemma YieldsExtends(buf: seq<Instr>, more: seq<Instr>, loc: int, d: Data, res: Outcome)
    requires LocOk(buf, loc) && buf <= more
    ensures Yields(more, loc, d, res) == Yields(buf, loc, d, res)
  {
    forall r ensures OutcomeAt(more, loc, r, d) == OutcomeAt(buf, loc, r, d) {
      OutcomeExtends(AsMeant, buf, more, loc, r, d);
    }
    if Yields(buf, loc, d, res) {
      assert forall r :: OutcomeAt(more, loc, r, d) == res;
    }
    if Yields(more, loc, d, res) {
      forall r ensures OutcomeAt(buf, loc, r, d) == res {
        assert OutcomeAt(more, loc, r, d) == res;
      }
    }
  }

  // ----- well-formed emission buffers -----

  /** The instruction at index i cannot go wrong: its jumps land at lower indices of the
      buffer, it reads an aligned word of the data, and it does not fall off the end. The
      architecture is read only once, at the very end of code generation. */
  predicate InstrOk(instr: Instr, i: nat) {
    match instr
    case Ret(_) => true
    case Ja(k) => k + 1 <= i
    case JmpK(_, _, jt, jf) => jt + 1 <= i && jf + 1 <= i
    case JmpX(_, jt, jf) => jt + 1 <= i && jf + 1 <= i
    case LdAbs(k) => 1 <= i && k % 4 == 0 && k + 4 <= SECCOMP_DATA_SIZE && k != OFFSET_ARCH
    case _ => 1 <= i
  }

  /** Scratch slots stay at or below the recorded maximum. */
  predicate SlotOk(instr: Instr, maxSlot: nat) {
    instr.LdxMem? || instr.St? ==> instr.slot <= maxSlot
  }

  /** An offset can only be lost far into the buffer. */
  const FIRST_BLIND: int := 259

  /** A branch that has lost an offset comes with two jumps to its first target, which is out of
      reach; with the two, the second target is 256 further back than they let it reach. */
  predicate LostAt(buf: seq<Instr>, i: nat)
    requires i < |buf| && buf[i].IsBranch()
  {
    && FIRST_BLIND <= i && buf[i].jt == buf[i].jf == 0
    && buf[i - 1].Ja? && buf[i - 2].Ja? && buf[i - 1].skip == buf[i - 2].skip + 1 > MAX_JUMP + 1
  }

  predicate CodeOk(buf: seq<Instr>, maxSlot: nat) {
    forall i :: 0 <= i < |buf| ==>
      InstrOk(buf[i], i) && SlotOk(buf[i], maxSlot) && (buf[i].IsBlind() ==> LostAt(buf, i))
  }
}
