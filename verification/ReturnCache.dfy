/** Remembered return instructions: the record of the basic actions and the cache of the others,
    from which returns that have moved out of jump distance are purged. */
module ReturnCache {
  import opened Sets
  import opened Actions
  import opened Bpf
  import opened CodeMeaning

  const INVALID_LOCATION: int := -0x8000_0000

  datatype CacheEntry = CacheEntry(action: int, location: int)

  /** The instruction at loc returns the code of the action. */
  predicate ReturnsAt(buf: seq<Instr>, loc: int, action: int) {
    0 <= loc < |buf| && ValidAction(action) && buf[loc] == Ret(ActionToBpf(action))
  }

  predicate Uncached(s: seq<CacheEntry>, action: int) {
    forall e :: e in s ==> e.action != action
  }

  /** A cache entry is a return of its own action. */
  predicate EntrySound(buf: seq<Instr>, e: CacheEntry) {
    e.action > ACTION_BASIC_MAX && ReturnsAt(buf, e.location, e.action)
  }

  /** Every cache entry is sound, and each action is cached once. */
  predicate CacheSound(buf: seq<Instr>, s: seq<CacheEntry>) {
    s == [] ||
    (var init, last := s[..|s| - 1], s[|s| - 1];
     CacheSound(buf, init) && EntrySound(buf, last) && Uncached(init, last.action))
  }

  lemma {:induction false} CachedEntrySound(buf: seq<Instr>, s: seq<CacheEntry>, i: nat)
    requires CacheSound(buf, s) && i < |s|
    ensures EntrySound(buf, s[i])
  {
    if i < |s| - 1 { CachedEntrySound(buf, s[..|s| - 1], i); }
  }

  lemma {:induction false} CachedOnce(buf: seq<Instr>, s: seq<CacheEntry>, i: nat, j: nat)
    requires CacheSound(buf, s) && i < j < |s|
    ensures s[i].action != s[j].action
  {
    var init := s[..|s| - 1];
    if j == |s| - 1 {
      assert init[i] in init;
    } else {
      CachedOnce(buf, init, i, j);
    }
  }

  /** Where a return of the action is cached, or INVALID_LOCATION. */
  function CachedIn(s: seq<CacheEntry>, action: int): int {
    if s == [] then INVALID_LOCATION
    else if s[|s| - 1].action == action then s[|s| - 1].location
    else CachedIn(s[..|s| - 1], action)
  }

  lemma {:induction false} CachedAtEntry(buf: seq<Instr>, s: seq<CacheEntry>, i: nat)
    requires CacheSound(buf, s) && i < |s|
    ensures CachedIn(s, s[i].action) == s[i].location
  {
    if i < |s| - 1 {
      CachedOnce(buf, s, i, |s| - 1);
      CachedAtEntry(buf, s[..|s| - 1], i);
    }
  }

  lemma {:induction false} UncachedIsInvalid(s: seq<CacheEntry>, action: int)
    requires Uncached(s, action)
    ensures CachedIn(s, action) == INVALID_LOCATION
  {
    if s != [] {
      assert s[|s| - 1] in s;
      UncachedIsInvalid(s[..|s| - 1], action);
    }
  }

  /** Where a return of the action is remembered to be, or INVALID_LOCATION. */
  function RecallIn(basic: seq<int>, s: seq<CacheEntry>, action: int): int
    requires |basic| == ACTION_BASIC_MAX + 1
  {
    if action <= ACTION_BASIC_MAX then if 1 <= action then basic[action] else INVALID_LOCATION
    else CachedIn(s, action)
  }

  /** The known locations of the basic actions are returns of those actions. */
  predicate BasicSound(buf: seq<Instr>, basic: seq<int>) {
    && |basic| == ACTION_BASIC_MAX + 1
    && forall a :: 1 <= a < |basic| ==> basic[a] == INVALID_LOCATION || ReturnsAt(buf, basic[a], a)
  }

  lemma {:induction false} CacheSoundExtends(buf: seq<Instr>, more: seq<Instr>, s: seq<CacheEntry>)
    requires CacheSound(buf, s) && buf <= more
    ensures CacheSound(more, s)
  {
    if s != [] { CacheSoundExtends(buf, more, s[..|s| - 1]); }
  }

  lemma BasicSoundExtends(buf: seq<Instr>, more: seq<Instr>, basic: seq<int>)
    requires BasicSound(buf, basic) && buf <= more
    ensures BasicSound(more, basic)
  {
  }

  // ----- a full window of the buffer cannot consist of cached returns -----

  /** A purged cache has a free slot: its entries are distinct returns among the last 255
      instructions, and one of those is not a return. */
  lemma {:induction false} WindowHasRoom(buf: seq<Instr>, s: seq<CacheEntry>)
    requires CacheSound(buf, s)
    requires forall e :: e in s ==> |buf| - 1 - e.location < MAX_JUMP
    requires |buf| <= 1 || !buf[|buf| - 1].Ret? || !buf[|buf| - 2].Ret?
    ensures |s| < MAX_JUMP
  {
    var locs := seq(|s|, i requires 0 <= i < |s| => s[i].location);
    forall i, j | 0 <= i < j < |s| ensures locs[i] != locs[j] {
      CachedOnce(buf, s, i, j);
      CachedEntrySound(buf, s, i);
      CachedEntrySound(buf, s, j);
      if locs[i] == locs[j] { ActionToBpfInjective(s[i].action, s[j].action); }
    }
    forall x | x in locs ensures |buf| - MAX_JUMP <= x && 0 <= x < |buf| && buf[x].Ret? {
      var i :| 0 <= i < |s| && locs[i] == x;
      CachedEntrySound(buf, s, i);
      assert s[i] in s;
    }
    if |buf| <= 1 {
      DistinctInInterval(locs, 0, 2, 1);
    } else {
      var gap := if buf[|buf| - 1].Ret? then |buf| - 2 else |buf| - 1;
      DistinctInInterval(locs, |buf| - MAX_JUMP, |buf|, gap);
    }
  }

  // ----- purging the cache -----

  /** The entries still within reach once one more instruction is emitted, in order. */
  function KeepNear(s: seq<CacheEntry>, current: int): seq<CacheEntry> {
    if s == [] then []
    else
      var kept, last := KeepNear(s[..|s| - 1], current), s[|s| - 1];
      if current - last.location < MAX_JUMP then kept + [last] else kept
  }

  lemma {:induction false} KeepNearNext(s: seq<CacheEntry>, i: nat, current: int)
    requires i < |s|
    ensures KeepNear(s[..i + 1], current)
         == if current - s[i].location < MAX_JUMP then KeepNear(s[..i], current) + [s[i]]
            else KeepNear(s[..i], current)
  {
    assert s[..i + 1][..i] == s[..i];
  }

  lemma {:induction false} KeepNearSelects(s: seq<CacheEntry>, current: int)
    ensures |KeepNear(s, current)| <= |s|
    ensures forall e :: e in KeepNear(s, current) <==> e in s && current - e.location < MAX_JUMP
  {
    if s != [] {
      KeepNearSelects(s[..|s| - 1], current);
      assert s == s[..|s| - 1] + [s[|s| - 1]];
    }
  }

  /** Purging keeps the cache sound and forgets only what is out of reach. */
  lemma {:induction false} PurgeKeepsSound(buf: seq<Instr>, s: seq<CacheEntry>, current: int)
    requires CacheSound(buf, s)
    ensures CacheSound(buf, KeepNear(s, current))
  {
    if s != [] {
      var init, last := s[..|s| - 1], s[|s| - 1];
      PurgeKeepsSound(buf, init, current);
      KeepNearSelects(init, current);
      if current - last.location < MAX_JUMP { CacheSoundSnoc(buf, KeepNear(init, current), last); }
    }
  }

  /** After purging there is a free slot. */
  lemma KeptHasRoom(buf: seq<Instr>, s: seq<CacheEntry>)
    requires CacheSound(buf, KeepNear(s, |buf| - 1))
    requires |buf| <= 1 || !buf[|buf| - 1].Ret? || !buf[|buf| - 2].Ret?
    ensures |KeepNear(s, |buf| - 1)| < MAX_JUMP
  {
    KeepNearSelects(s, |buf| - 1);
    WindowHasRoom(buf, KeepNear(s, |buf| - 1));
  }

  lemma {:induction false} CacheSoundSnoc(buf: seq<Instr>, s: seq<CacheEntry>, x: CacheEntry)
    requires CacheSound(buf, s) && EntrySound(buf, x) && Uncached(s, x.action)
    ensures CacheSound(buf, s + [x])
  {
    assert (s + [x])[..|s|] == s;
  }

  lemma {:induction false} CachedInSnoc(s: seq<CacheEntry>, x: CacheEntry, action: int)
    ensures CachedIn(s + [x], action) == if x.action == action then x.location else CachedIn(s, action)
  {
    assert (s + [x])[..|s|] == s;
  }

  lemma {:induction false} PurgeKeepsNear(s: seq<CacheEntry>, current: int, action: int)
    requires current - CachedIn(s, action) < MAX_JUMP
    ensures CachedIn(KeepNear(s, current), action) == CachedIn(s, action)
  {
    if s != [] {
      var init, last := s[..|s| - 1], s[|s| - 1];
      if last.action != action { PurgeKeepsNear(init, current, action); }
      CachedInSnoc(KeepNear(init, current), last, action);
    }
  }

  /** A return for an action that is not cached, cached after a purge. */
  lemma InsertReturn(buf: seq<Instr>, basic: seq<int>, s: seq<CacheEntry>, action: int)
    requires |basic| == ACTION_BASIC_MAX + 1 && CacheSound(buf, s)
    requires ValidAction(action) && ACTION_BASIC_MAX < action && Uncached(s, action)
    ensures var current, t := |buf| - 1, KeepNear(s, |buf| - 1) + [CacheEntry(action, |buf|)];
            && CacheSound(buf + [Ret(ActionToBpf(action))], t)
            && RecallIn(basic, t, action) == |buf|
            && forall a :: a != action && current - RecallIn(basic, s, a) < MAX_JUMP
                 ==> RecallIn(basic, t, a) == RecallIn(basic, s, a)
  {
    var more, current := buf + [Ret(ActionToBpf(action))], |buf| - 1;
    var kept, added := KeepNear(s, current), CacheEntry(action, |buf|);
    PurgeKeepsSound(buf, s, current);
    KeepNearSelects(s, current);
    CacheSoundExtends(buf, more, kept);
    CacheSoundSnoc(more, kept, added);
    CachedInSnoc(kept, added, action);
    forall a | a != action && ACTION_BASIC_MAX < a && current - CachedIn(s, a) < MAX_JUMP
      ensures CachedIn(kept + [added], a) == CachedIn(s, a)
    {
      PurgeKeepsNear(s, current, a);
      CachedInSnoc(kept, added, a);
    }
  }

  /** A new return for a cached action. */
  lemma {:induction false} MoveReturn(buf: seq<Instr>, s: seq<CacheEntry>, i: nat)
    requires CacheSound(buf, s) && i < |s|
    ensures var action, t := s[i].action, s[i := CacheEntry(s[i].action, |buf|)];
            && ValidAction(action) && ACTION_BASIC_MAX < action
            && CacheSound(buf + [Ret(ActionToBpf(action))], t)
            && forall a :: CachedIn(t, a) == if a == action then |buf| else CachedIn(s, a)
  {
    CachedEntrySound(buf, s, i);
    var action, n := s[i].action, |s| - 1;
    var more, moved := buf + [Ret(ActionToBpf(action))], CacheEntry(action, |buf|);
    var init, t := s[..n], s[i := moved];
    if i == n {
      CacheSoundExtends(buf, more, init);
      assert t[..n] == init;
    } else {
      MoveReturn(buf, init, i);
      CachedOnce(buf, s, i, n);
      assert t[..n] == init[i := moved];
      forall e | e in t[..n] ensures e.action != s[n].action {
        var k :| 0 <= k < n && t[..n][k] == e;
        assert init[k] in init;
      }
    }
  }
}
