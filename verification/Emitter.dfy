/** The code generation context: the buffer that instructions are emitted into, backwards, so
    that every jump goes to code that is already there. */
module Emitter {
  import opened Actions
  import opened Bpf
  import opened CodeSize
  import opened CodeMeaning
  import opened ReturnCache
  import opened Branching

  /** The first n instructions and the last n have changed places. */
  predicate SwappedOutside(was: seq<Instr>, now: seq<Instr>, n: nat) {
    |now| == |was| && forall k {:trigger now[k]} :: 0 <= k < |now| ==>
      now[k] == if n <= k < |was| - n then was[k] else was[|was| - 1 - k]
  }

  lemma SwapInwards(was: seq<Instr>, now: seq<Instr>, n: nat)
    requires SwappedOutside(was, now, n) && 2 * n + 1 < |was|
    ensures var last := |was| - 1 - n;
            SwappedOutside(was, now[n := now[last]][last := now[n]], n + 1)
  {
  }

  /** The code generation context. */
  class Context {
    var buffer: seq<Instr>
    const basicActions: array<int>
    const cache: array<CacheEntry>
    var cacheSize: nat
    var maxStackPtr: nat

    constructor ()
      ensures Valid() && Settled() && buffer == [] && maxStackPtr == 0
      ensures fresh(basicActions) && fresh(cache)
    {
      buffer, cacheSize, maxStackPtr := [], 0, 0;
      basicActions := new int[ACTION_BASIC_MAX + 1](_ => INVALID_LOCATION);
      cache := new CacheEntry[MAX_JUMP](_ => CacheEntry(0, 0));
    }

    /** The context is sound, and a return of KILL that has been emitted is remembered. */
    ghost predicate Valid()
      reads this, basicActions, cache
    {
      Sound() && (HoldsKill(buffer) ==> basicActions[ACTION_KILL] != INVALID_LOCATION)
    }

    /** The emitted code is well formed, and every remembered location is a return of its own
        action, each cached action being remembered once. */
    ghost predicate Sound()
      reads this, basicActions, cache
    {
      && basicActions.Length == ACTION_BASIC_MAX + 1
      && cache.Length == MAX_JUMP
      && cacheSize <= MAX_JUMP
      && CodeOk(buffer, maxStackPtr)
      && (maxStackPtr == 0 || LdxMem(maxStackPtr) in buffer)
      && BasicSound(buffer, basicActions[..])
      && CacheSound(buffer, cache[..cacheSize])
    }

    function CurrentLoc(): int
      reads this`buffer
    {
      |buffer| - 1
    }

    function LocToJump(loc: int): int
      reads this`buffer
    {
      CurrentLoc() - loc
    }

    /** Nothing is half done: the last instruction is not a return waiting for its branch. */
    ghost predicate Settled()
      reads this`buffer
    {
      buffer == [] || !buffer[|buffer| - 1].Ret?
    }

    ghost predicate HasRoom()
      reads this`buffer
    {
      |buffer| <= 1 || !buffer[|buffer| - 1].Ret? || !buffer[|buffer| - 2].Ret?
    }

    /** Where the context remembers a return of the action. */
    ghost function Recall(action: int): int
      requires basicActions.Length == ACTION_BASIC_MAX + 1 && cacheSize <= cache.Length
      reads this`cacheSize, basicActions, cache
    {
      RecallIn(basicActions[..], cache[..cacheSize], action)
    }

    ghost predicate RecalledNear(action: int)
      requires basicActions.Length == ACTION_BASIC_MAX + 1 && cacheSize <= cache.Length
      reads this`buffer, this`cacheSize, basicActions, cache
    {
      LocToJump(Recall(action)) <= MAX_JUMP
    }

    method AddInstruction(inst: Instr) returns (loc: int)
      requires Valid()
      requires InstrOk(inst, |buffer|) && SlotOk(inst, maxStackPtr)
      requires inst.IsBlind() ==> LostAt(buffer + [inst], |buffer|)
      modifies this`buffer
      ensures Sound() && (inst != KILL_RETURN ==> Valid())
      ensures buffer == old(buffer) + [inst] && loc == |buffer| - 1
      ensures !inst.IsBranch() && inst != KILL_RETURN ==> Harmless(old(buffer), buffer)
    {
      CacheSoundExtends(buffer, buffer + [inst], cache[..cacheSize]);
      BasicSoundExtends(buffer, buffer + [inst], basicActions[..]);
      buffer := buffer + [inst];
      return CurrentLoc();
    }

    /** Forget cached returns that the next return would push out of reach. */
    method PurgeLocationCache()
      requires Valid()
      modifies this`cacheSize, cache
      ensures Valid()
      ensures cache[..cacheSize] == KeepNear(old(cache[..cacheSize]), |buffer| - 1)
    {
      ghost var was := cache[..cacheSize];
      cacheSize := CompactCache();
      PurgeKeepsSound(buffer, was, CurrentLoc());
    }

    /** Move the entries that stay to the front, in order; n is how many they are. */
    method CompactCache() returns (n: nat)
      requires cacheSize <= cache.Length
      modifies cache
      ensures n <= cacheSize && cache[..n] == KeepNear(old(cache[..cacheSize]), CurrentLoc())
    {
      ghost var was := cache[..cacheSize];
      n := 0;
      for i := 0 to cacheSize
        invariant n <= i <= cacheSize == |was| <= cache.Length
        invariant forall k :: i <= k < cacheSize ==> cache[k] == was[k]
        invariant cache[..n] == KeepNear(was[..i], CurrentLoc())
      {
        KeepNearNext(was, i, CurrentLoc());
        if LocToJump(cache[i].location) < MAX_JUMP {
          MoveEntry(i, n);
          n := n + 1;
        }
      }
      assert was[..|was|] == was;
    }

    method MoveEntry(i: nat, j: nat)
      requires j <= i < cacheSize <= cache.Length
      modifies cache
      ensures cache[..j + 1] == old(cache[..j]) + [old(cache[i])]
      ensures forall k :: i < k < cacheSize ==> cache[k] == old(cache[k])
    {
      if j != i {
        cache[j] := cache[i];
      }
    }

    /** Look the action up in the cache. */
    method FindCached(action: int) returns (i: nat)
      requires Valid()
      ensures i <= cacheSize
      ensures i < cacheSize ==> cache[i].action == action
      ensures i == cacheSize ==> Uncached(cache[..cacheSize], action)
    {
      i := 0;
      while i < cacheSize && cache[i].action != action
        invariant i <= cacheSize && Uncached(cache[..i], action)
      {
        i := i + 1;
      }
    }

    /** Find a return of the action within jump distance, emitting one if none is
        remembered. */
    method ResolveAction(action: int) returns (loc: int)
      requires Valid() && ValidAction(action)
      requires HasRoom() || RecalledNear(action)
      modifies this`buffer, this`cacheSize, basicActions, cache
      ensures Valid()
      ensures if old(RecalledNear(action))
              then buffer == old(buffer) && loc == old(Recall(action))
                   && unchanged(basicActions) && unchanged(cache) && cacheSize == old(cacheSize)
              else buffer == old(buffer) + [Ret(ActionToBpf(action))] && loc == |buffer| - 1
      ensures ReturnsAt(buffer, loc, action) && Recall(action) == loc
      ensures forall a :: a != action && old(LocToJump(Recall(a))) < MAX_JUMP
                ==> Recall(a) == old(Recall(a))
    {
      if action <= ACTION_BASIC_MAX {
        loc := ResolveBasicAction(action);
      } else {
        loc := ResolveCachedAction(action);
      }
    }

    method ResolveBasicAction(action: int) returns (loc: int)
      requires Valid() && 1 <= action <= ACTION_BASIC_MAX
      modifies this`buffer, basicActions
      ensures Valid()
      ensures if old(RecalledNear(action))
              then buffer == old(buffer) && loc == old(Recall(action))
                   && unchanged(basicActions) && unchanged(cache) && cacheSize == old(cacheSize)
              else buffer == old(buffer) + [Ret(ActionToBpf(action))] && loc == |buffer| - 1
      ensures ReturnsAt(buffer, loc, action) && Recall(action) == loc
      ensures forall a :: a != action && old(LocToJump(Recall(a))) < MAX_JUMP
                ==> Recall(a) == old(Recall(a))
    {
      if basicActions[action] == INVALID_LOCATION || LocToJump(basicActions[action]) > MAX_JUMP {
        OtherReturn(action);
        var added := AddInstruction(Ret(ActionToBpf(action)));
        basicActions[action] := added;
      }
      return basicActions[action];
    }

    method ResolveCachedAction(action: int) returns (loc: int)
      requires Valid() && ValidAction(action) && ACTION_BASIC_MAX < action
      requires HasRoom() || RecalledNear(action)
      modifies this`buffer, this`cacheSize, cache
      ensures Valid()
      ensures if old(RecalledNear(action))
              then buffer == old(buffer) && loc == old(Recall(action))
                   && unchanged(basicActions) && unchanged(cache) && cacheSize == old(cacheSize)
              else buffer == old(buffer) + [Ret(ActionToBpf(action))] && loc == |buffer| - 1
      ensures ReturnsAt(buffer, loc, action) && Recall(action) == loc
      ensures forall a :: a != action && old(LocToJump(Recall(a))) < MAX_JUMP
                ==> Recall(a) == old(Recall(a))
    {
      var i := FindCached(action);
      if i < cacheSize {
        CachedEntrySound(buffer, cache[..cacheSize], i);
        CachedAtEntry(buffer, cache[..cacheSize], i);
        if LocToJump(cache[i].location) > MAX_JUMP {
          RefreshCached(i);
        }
        return cache[i].location;
      }
      UncachedIsInvalid(cache[..cacheSize], action);
      loc := InsertCached(action);
    }

    /** Emit a new return for a cached action that is out of reach. */
    method RefreshCached(i: nat)
      requires Valid() && i < cacheSize
      modifies this`buffer, cache
      ensures Valid()
      ensures cache[i] == CacheEntry(old(cache[i]).action, |buffer| - 1)
      ensures ValidAction(cache[i].action) && Recall(cache[i].action) == |buffer| - 1
      ensures buffer == old(buffer) + [Ret(ActionToBpf(cache[i].action))]
      ensures forall a :: a != cache[i].action ==> Recall(a) == old(Recall(a))
    {
      ghost var b, was := buffer, cache[..cacheSize];
      MoveReturn(b, was, i);
      OtherReturn(was[i].action);
      var added := AddInstruction(Ret(ActionToBpf(cache[i].action)));
      cache[i] := cache[i].(location := added);
      assert cache[..cacheSize] == was[i := CacheEntry(was[i].action, |b|)];
    }

    /** Emit a return for an action that is not cached, and cache it. */
    method InsertCached(action: int) returns (loc: int)
      requires Valid() && ValidAction(action) && ACTION_BASIC_MAX < action
      requires HasRoom() && Uncached(cache[..cacheSize], action)
      modifies this`buffer, this`cacheSize, cache
      ensures Valid()
      ensures Recall(action) == loc
      ensures buffer == old(buffer) + [Ret(ActionToBpf(action))] && loc == |buffer| - 1
      ensures forall a :: a != action && old(LocToJump(Recall(a))) < MAX_JUMP
                ==> Recall(a) == old(Recall(a))
    {
      ghost var b, basic, was := buffer, basicActions[..], cache[..cacheSize];
      InsertReturn(b, basic, was, action);
      PurgeLocationCache();
      loc := AddReturn(action, was);
      assert basicActions[..] == basic;
    }

    /** Emit a return and cache it in the slot that a purge has left free; was is the cache
        before the purge. */
    method AddReturn(action: int, ghost was: seq<CacheEntry>) returns (loc: int)
      requires Valid() && ValidAction(action) && HasRoom()
      requires cache[..cacheSize] == KeepNear(was, |buffer| - 1)
      requires CacheSound(buffer + [Ret(ActionToBpf(action))],
                          KeepNear(was, |buffer| - 1) + [CacheEntry(action, |buffer|)])
      modifies this`buffer, this`cacheSize, cache
      ensures Valid()
      ensures buffer == old(buffer) + [Ret(ActionToBpf(action))] && loc == |buffer| - 1
      ensures cache[..cacheSize] == KeepNear(was, |old(buffer)| - 1) + [CacheEntry(action, |old(buffer)|)]
    {
      KeptHasRoom(buffer, was);
      OtherReturn(action);
      loc := AddInstruction(Ret(ActionToBpf(action)));
      Remember(CacheEntry(action, loc));
    }

    /** Put an entry into the first free slot. */
    method Remember(entry: CacheEntry)
      requires Valid() && cacheSize < MAX_JUMP && CacheSound(buffer, cache[..cacheSize] + [entry])
      modifies this`cacheSize, cache
      ensures Valid() && cache[..cacheSize] == old(cache[..cacheSize]) + [entry]
    {
      ghost var kept := cache[..cacheSize];
      cache[cacheSize] := entry;
      cacheSize := cacheSize + 1;
      assert cache[..cacheSize] == kept + [entry];
    }

    /** The instruction a location stands for right now, if any: an action stands for its
        remembered return. */
    ghost function Position(loc: int): int
      requires basicActions.Length == ACTION_BASIC_MAX + 1 && cacheSize <= cache.Length
      reads this`cacheSize, basicActions, cache
    {
      if loc < 0 then Recall(-loc) else loc
    }

    /** An instruction within jump distance that continues at the location. */
    method ResolveLocation(loc: int) returns (pos: int)
      requires Valid()
      requires if loc < 0 then ValidAction(-loc) && (HasRoom() || RecalledNear(-loc)) else loc < |buffer|
      modifies this`buffer, this`cacheSize, basicActions, cache
      ensures Valid()
      ensures Resolves(old(buffer), buffer, loc, pos)
      ensures if old(LocToJump(Position(loc))) <= MAX_JUMP
              then buffer == old(buffer) && pos == old(Position(loc))
              else |buffer| == |old(buffer)| + 1 && pos == |buffer| - 1
      ensures loc >= 0 || old(RecalledNear(-loc)) ==>
                unchanged(basicActions) && unchanged(cache) && cacheSize == old(cacheSize)
      ensures loc < 0 ==> Recall(-loc) == pos
      ensures old(Settled()) ==> HasRoom()
      ensures forall a :: a != -loc && old(LocToJump(Recall(a))) < MAX_JUMP
                ==> Recall(a) == old(Recall(a))
    {
      if loc < 0 {
        pos := ResolveAction(-loc);
        return;
      }
      pos := loc;
      if LocToJump(loc) > MAX_JUMP {
        pos := AddInstruction(Ja(LocToJump(loc)));
      }
    }

    /** The one pair of targets for which a jump offset does not fit: resolving the first
        target takes two extra instructions and pushes the second from 254 to 256 back. */
    ghost predicate OffsetLost(t: int, f: int)
      requires basicActions.Length == ACTION_BASIC_MAX + 1 && cacheSize <= cache.Length
      reads this`buffer, this`cacheSize, basicActions, cache
    {
      t >= 0 && LocToJump(t) > MAX_JUMP && LocToJump(Position(f)) == MAX_JUMP - 1
    }

    /** Positions for both targets of a branch. The first target is resolved again at the end
        because resolving the second may push it out of reach. */
    method ResolveTargets(t: int, f: int) returns (tpos: int, fpos: int)
      requires Valid() && Settled() && LocOk(buffer, t) && LocOk(buffer, f) && t != f
      modifies this`buffer, this`cacheSize, basicActions, cache
      ensures Valid() && old(buffer) <= buffer && |buffer| <= |old(buffer)| + BRANCH_SIZE - 1
      ensures 0 <= tpos < |buffer| && 0 <= fpos < |buffer| && tpos != fpos
      ensures LocToJump(tpos) <= MAX_JUMP && LocToJump(fpos) <= MAX_JUMP + 1
      ensures old(OffsetLost(t, f)) <==> LocToJump(fpos) == MAX_JUMP + 1
      ensures old(OffsetLost(t, f)) ==> LocToJump(tpos) == 0 && FarJumps(buffer)
      ensures ContinuesAt(buffer, tpos, t) && ContinuesAt(buffer, fpos, f)
      ensures StaysSighted(old(buffer), buffer)
      ensures HoldsKill(buffer) <==> HoldsKill(old(buffer)) || ToKill(t, f)
    {
      ghost var b0 := buffer;
      ghost var p1, b1;
      p1, b1, fpos := ResolveBoth(t, f);
      ghost var b2 := buffer;
      tpos := ResolveLocation(t);
      TargetsPlaced(b0, b1, b2, buffer, t, f, p1, fpos, tpos, old(OffsetLost(t, f)));
    }

    /** The first two resolutions of ResolveTargets; p1 and b1 record the state in between. */
    method ResolveBoth(t: int, f: int) returns (ghost p1: int, ghost b1: seq<Instr>, fpos: int)
      requires Valid() && Settled() && LocOk(buffer, t) && LocOk(buffer, f) && t != f
      modifies this`buffer, this`cacheSize, basicActions, cache
      ensures Valid()
      ensures Resolves(old(buffer), b1, t, p1) && Resolves(b1, buffer, f, fpos)
      ensures t < 0 ==> HasRoom() || RecalledNear(-t)
      ensures t < 0 && buffer == b1 ==> RecalledNear(-t)
      ensures old(OffsetLost(t, f)) <==>
                t >= 0 && |old(buffer)| - 1 - t > MAX_JUMP
                && buffer == b1 && fpos == |old(buffer)| - MAX_JUMP
    {
      p1 := ResolveLocation(t);
      b1 := buffer;
      fpos := ResolveLocation(f);
    }

    /** Emit a branch on the accumulator that continues at t when the test holds and at f
        otherwise. Both offsets are cut to eight bits. The branch is exact, except that it
        always continues at t in the one case OffsetLost describes: if the targets can be told
        apart at all, it is wrong exactly then. The case is visible in the code as a branch with
        equal offsets, and no other instruction emitted here is one. With the second offset read
        as it was before it was cut, the branch is exact in this case too. */
    method AddJump(cond: Cond, operand: Operand, t: int, f: int) returns (loc: int)
      requires Valid() && Settled() && LocOk(buffer, t) && LocOk(buffer, f)
      modifies this`buffer, this`cacheSize, basicActions, cache
      ensures Valid() && Settled() && old(buffer) <= buffer && LocOk(buffer, loc)
      ensures t == f ==> loc == t && buffer == old(buffer)
      ensures t != f ==> loc == |buffer| - 1 && |old(buffer)| < |buffer|
      ensures |buffer| <= |old(buffer)| + BRANCH_SIZE
      ensures t != f ==> (buffer[loc].IsBlind() <==> old(OffsetLost(t, f)))
      ensures BranchesTo(AsIs, buffer, loc, cond, operand, t, if old(OffsetLost(t, f)) then t else f)
      ensures Distinguished(old(buffer), cond, operand, t, f) ==>
                (BranchesTo(AsIs, buffer, loc, cond, operand, t, f) <==> !old(OffsetLost(t, f)))
      ensures BranchesTo(AsMeant, buffer, loc, cond, operand, t, f)
      ensures t != f ==> BranchAt(buffer, loc, cond, operand, t, f)
      ensures t != f ==> SightedBelow(old(buffer), buffer)
      ensures !old(OffsetLost(t, f)) ==> StaysSighted(old(buffer), buffer)
      ensures HoldsKill(buffer) <==> HoldsKill(old(buffer)) || (t != f && ToKill(t, f))
    {
      if t == f {
        SameTargets(AsIs, buffer, cond, operand, t);
        SameTargets(AsMeant, buffer, cond, operand, t);
        return t;
      }
      ghost var b, lost := buffer, OffsetLost(t, f);
      loc := AddApart(cond, operand, t, f);
      if lost { LostIsWrong(b, buffer, loc, cond, operand, t, f); }
    }

    /** The same for different targets. */
    method AddApart(cond: Cond, operand: Operand, t: int, f: int) returns (loc: int)
      requires Valid() && Settled() && LocOk(buffer, t) && LocOk(buffer, f) && t != f
      modifies this`buffer, this`cacheSize, basicActions, cache
      ensures Valid() && Settled() && old(buffer) <= buffer && LocOk(buffer, loc)
      ensures loc == |buffer| - 1 && |old(buffer)| < |buffer| <= |old(buffer)| + BRANCH_SIZE
      ensures buffer[loc].IsBlind() <==> old(OffsetLost(t, f))
      ensures BranchesTo(AsIs, buffer, loc, cond, operand, t, if old(OffsetLost(t, f)) then t else f)
      ensures BranchesTo(AsMeant, buffer, loc, cond, operand, t, f)
      ensures BranchAt(buffer, loc, cond, operand, t, f)
      ensures SightedBelow(old(buffer), buffer)
      ensures !old(OffsetLost(t, f)) ==> StaysSighted(old(buffer), buffer)
      ensures HoldsKill(buffer) <==> HoldsKill(old(buffer)) || ToKill(t, f)
    {
      ghost var lost := OffsetLost(t, f);
      var tpos, fpos := ResolveTargets(t, f);
      ghost var b1 := buffer;
      loc := AddBranch(cond, operand, tpos, fpos, t, f, lost);
      BranchStays(old(buffer), b1, buffer);
    }

    /** Emit the branch itself, once positions for its targets are known. */
    method AddBranch(cond: Cond, operand: Operand, tpos: int, fpos: int, ghost t: int, ghost f: int, ghost lost: bool)
      returns (loc: int)
      requires Valid() && LocOk(buffer, t) && LocOk(buffer, f)
      requires 0 <= tpos < |buffer| && 0 <= fpos < |buffer| && tpos != fpos
      requires LocToJump(tpos) <= MAX_JUMP && LocToJump(fpos) <= MAX_JUMP + 1
      requires lost <==> LocToJump(fpos) == MAX_JUMP + 1
      requires lost ==> LocToJump(tpos) == 0 && FarJumps(buffer)
      requires ContinuesAt(buffer, tpos, t) && ContinuesAt(buffer, fpos, f)
      modifies this`buffer
      ensures Valid() && |buffer| == |old(buffer)| + 1 && old(buffer) <= buffer && loc == |buffer| - 1
      ensures buffer[loc].IsBranch() && (buffer[loc].IsBlind() <==> lost)
      ensures LocOk(buffer, t) && LocOk(buffer, f)
      ensures BranchesTo(AsIs, buffer, loc, cond, operand, t, if lost then t else f)
      ensures BranchesTo(AsMeant, buffer, loc, cond, operand, t, f)
      ensures BranchAt(buffer, loc, cond, operand, t, f)
      ensures HoldsKill(buffer) <==> HoldsKill(old(buffer))
    {
      ghost var b := buffer;
      OffsetsCut(LocToJump(tpos), LocToJump(fpos));
      var jt: u8, jf: u8 := LocToJump(tpos) % 256, LocToJump(fpos) % 256;
      loc := AddInstruction(BranchInstr(cond, operand, jt, jf));
      BranchBuilt(AsIs, b, cond, operand, jt, jf, tpos, if lost then tpos else fpos, t, if lost then t else f);
      BranchBuilt(AsMeant, b, cond, operand, jt, jf, tpos, fpos, t, f);
    }

    /** Emit the load of a scratch slot, and record the highest slot in use. */
    method AddSlotLoad(sp: nat)
      requires Valid() && buffer != []
      modifies this`buffer, this`maxStackPtr
      ensures Valid() && buffer == old(buffer) + [LdxMem(sp)]
      ensures sp <= maxStackPtr && SlotsWithin(old(maxStackPtr), maxStackPtr, sp + 1)
      ensures Harmless(old(buffer), buffer)
    {
      CacheSoundExtends(buffer, buffer + [LdxMem(sp)], cache[..cacheSize]);
      BasicSoundExtends(buffer, buffer + [LdxMem(sp)], basicActions[..]);
      buffer := buffer + [LdxMem(sp)];
      if sp > maxStackPtr {
        maxStackPtr := sp;
      }
    }

    /** Turn the emission order into the execution order, in place. */
    method ReverseInstructionBuffer()
      modifies this`buffer
      ensures buffer == Reverse(old(buffer))
    {
      var first, last := 0, |buffer| - 1;
      while first < last
        invariant 0 <= first <= last + 2 && first + last == |buffer| - 1
        invariant SwappedOutside(old(buffer), buffer, first)
      {
        SwapInwards(old(buffer), buffer, first);
        buffer := buffer[first := buffer[last]][last := buffer[first]];
        first, last := first + 1, last - 1;
      }
      assert buffer == Reverse(old(buffer));
    }
  }
}
