/**
 Locks among the worker's connections to database files: a five-level file lock, and eight shared-memory
 locks. The records the calls keep are what the connections' own levels and bits say, every answer is
 decided by those alone, and no two connections ever hold what excludes each other.
 */
module FileLocks {
  /** A connection's file structure; zero is none. */
  type Handle = nat
  type Member = nat

  const NONE := 0
  const SHARED := 1
  const RESERVED := 2
  const PENDING := 3
  const EXCLUSIVE := 4
  const SLOTS := 8

  /** `shm` is the slots held: `i` for reading slot `i`, `SLOTS + i` for writing it. */
  datatype Connection = Connection(member: Member, level: nat, shm: set<nat>)

  datatype FileLock = FileLock(shared: set<Handle>, reserved: Handle, pending: Handle, exclusive: Handle)

  datatype Memory = Memory(users: set<Handle>, readers: seq<int>, writer: seq<Handle>)

  type Opens = map<Handle, Connection>

  // ----- What the connections hold

  predicate On(opens: Opens, p: Handle, member: Member) {
    p in opens && opens[p].member == member
  }

  /** Another connection of the same file holds at least a level. */
  ghost predicate Other(opens: Opens, p: Handle, level: nat)
    requires p in opens
  {
    exists q :: q != p && On(opens, q, opens[p].member) && opens[q].level >= level
  }

  /** At most one connection of a file is at reserved or above, and an exclusive one is alone. */
  ghost predicate Excludes(opens: Opens) {
    forall p, q :: p in opens && q in opens && p != q && opens[p].member == opens[q].member ==> Compatible(opens[p].level, opens[q].level)
  }

  predicate Compatible(a: nat, b: nat) {
    !(a >= RESERVED && b >= RESERVED) && (a == EXCLUSIVE ==> b == NONE) && (b == EXCLUSIVE ==> a == NONE)
  }

  /** A slot's writer excludes every other reader and writer. */
  ghost predicate SlotsExclude(opens: Opens) {
    forall p, q, i :: p in opens && q in opens && p != q && opens[p].member == opens[q].member && 0 <= i < SLOTS && Writes(opens[p], i)
      ==> !Reads(opens[q], i) && !Writes(opens[q], i)
  }

  predicate Reads(open: Connection, i: nat) {
    i in open.shm
  }

  predicate Writes(open: Connection, i: nat) {
    SLOTS + i in open.shm
  }

  // ----- What a call decides

  datatype Answer = Answer(opens: Opens, busy: bool)

  function AtLevel(opens: Opens, p: Handle, level: nat): Opens
    requires p in opens
  {
    opens[p := opens[p].(level := level)]
  }

  /** `xLock`, by the levels alone. */
  ghost function Locked(opens: Opens, p: Handle, level: nat): Answer
    requires p in opens
  {
    if opens[p].level >= level then Answer(opens, false)
    else if level == SHARED then if Other(opens, p, PENDING) then Answer(opens, true) else Answer(AtLevel(opens, p, SHARED), false)
    else if Other(opens, p, RESERVED) then Answer(opens, true)
    else if level == RESERVED then Answer(AtLevel(opens, p, RESERVED), false)
    else if Other(opens, p, SHARED) then Answer(AtLevel(opens, p, PENDING), true)
    else Answer(AtLevel(opens, p, EXCLUSIVE), false)
  }

  /** What the library asks: shared, or from shared on reserved or exclusive. */
  predicate Asks(opens: Opens, p: Handle, level: nat) {
    p in opens && (level == SHARED || ((level == RESERVED || level == EXCLUSIVE) && opens[p].level >= SHARED))
  }

  lemma LockExcludes(opens: Opens, p: Handle, level: nat)
    requires Excludes(opens) && Asks(opens, p, level)
    ensures Excludes(Locked(opens, p, level).opens)
  {
    var next := Locked(opens, p, level).opens;
    forall q | q in opens && q != p && opens[q].member == opens[p].member
      ensures Compatible(next[p].level, opens[q].level)
    {
      assert On(opens, q, opens[p].member);
      assert Compatible(opens[p].level, opens[q].level);
    }
  }

  function Unlocked(opens: Opens, p: Handle, level: nat): Opens
    requires p in opens
  {
    if opens[p].level <= level then opens else AtLevel(opens, p, level)
  }

  lemma UnlockExcludes(opens: Opens, p: Handle, level: nat)
    requires Excludes(opens) && p in opens && (level == NONE || level == SHARED)
    ensures Excludes(Unlocked(opens, p, level))
  {
    var next := Unlocked(opens, p, level);
    forall q | q in opens && q != p && opens[q].member == opens[p].member
      ensures Compatible(next[p].level, opens[q].level)
    {
      assert Compatible(opens[p].level, opens[q].level);
    }
  }

  lemma OthersBelow(opens: Opens, p: Handle, level: nat)
    requires p in opens && !Other(opens, p, level)
    ensures forall q :: q != p && On(opens, q, opens[p].member) ==> opens[q].level < level
    ensures forall more: nat :: level <= more ==> !Other(opens, p, more)
  {
  }

  /** Whoever waits for the file alone gets it: a pending connection is granted the exclusive lock once the
      others have let go, and meanwhile no other is granted any. */
  lemma PendingGetsIt(opens: Opens, p: Handle, q: Handle, level: nat)
    requires Excludes(opens) && p in opens && opens[p].level == PENDING
    requires q != p && On(opens, q, opens[p].member) && Asks(opens, q, level) && opens[q].level < level
    ensures Locked(opens, q, level) == Answer(opens, true)
    ensures !Other(opens, p, SHARED) ==> Locked(opens, p, EXCLUSIVE) == Answer(AtLevel(opens, p, EXCLUSIVE), false)
  {
    assert On(opens, p, opens[q].member);
    assert Other(opens, q, PENDING) && Other(opens, q, RESERVED);
    assert Compatible(opens[p].level, opens[q].level);
    if !Other(opens, p, SHARED) {
      OthersBelow(opens, p, SHARED);
    }
  }

  // ----- Shared memory, slot by slot

  datatype Want = Read | Write

  function Bits(want: Want, offset: nat, n: nat): set<nat> {
    set b: nat | b < 2 * SLOTS && InBits(want, offset, n, b)
  }

  predicate InBits(want: Want, offset: nat, n: nat, b: nat) {
    if want.Read? then offset <= b < offset + n else SLOTS + offset <= b < SLOTS + offset + n
  }

  /** Another connection of the file holds what excludes this want of one of the slots. */
  ghost predicate SlotTaken(opens: Opens, p: Handle, want: Want, offset: nat, n: nat)
    requires p in opens
  {
    exists q, i: nat :: q != p && On(opens, q, opens[p].member) && offset <= i < offset + n
                        && (Writes(opens[q], i) || (want.Write? && Reads(opens[q], i)))
  }

  function Holding(opens: Opens, p: Handle, shm: set<nat>): Opens
    requires p in opens
  {
    opens[p := opens[p].(shm := shm)]
  }

  /** `xShmLock` where it locks, by the bits alone. */
  ghost function SlotsLocked(opens: Opens, p: Handle, want: Want, offset: nat, n: nat): Answer
    requires p in opens
  {
    if SlotTaken(opens, p, want, offset, n) then Answer(opens, true)
    else Answer(Holding(opens, p, opens[p].shm + Bits(want, offset, n)), false)
  }

  lemma SlotsLockedExclude(opens: Opens, p: Handle, want: Want, offset: nat, n: nat)
    requires SlotsExclude(opens) && p in opens && offset + n <= SLOTS
    ensures SlotsExclude(SlotsLocked(opens, p, want, offset, n).opens)
  {
    var next := SlotsLocked(opens, p, want, offset, n).opens;
    forall q, i: nat | q in opens && q != p && opens[q].member == opens[p].member && i < SLOTS
      ensures Writes(next[p], i) ==> !Reads(opens[q], i) && !Writes(opens[q], i)
      ensures Writes(opens[q], i) ==> !Reads(next[p], i) && !Writes(next[p], i)
    {
      assert On(opens, q, opens[p].member);
      assert Writes(opens[p], i) ==> !Reads(opens[q], i) && !Writes(opens[q], i);
      assert Writes(opens[q], i) ==> !Reads(opens[p], i) && !Writes(opens[p], i);
    }
  }

  lemma FewerBitsExclude(opens: Opens, p: Handle, shm: set<nat>)
    requires SlotsExclude(opens) && p in opens && shm <= opens[p].shm
    ensures SlotsExclude(Holding(opens, p, shm))
  {
  }

  // ----- The records kept

  /** A file's lock record, against its connections' levels. */
  ghost predicate LockAgrees(opens: Opens, member: Member, lock: FileLock) {
    && (forall p :: p in lock.shared <==> On(opens, p, member) && opens[p].level >= SHARED)
    && (lock.reserved != 0 ==> On(opens, lock.reserved, member) && opens[lock.reserved].level >= RESERVED)
    && (forall p :: On(opens, p, member) ==> AgreesAbove(opens[p].level, p, lock))
    && (lock.pending != 0 ==> On(opens, lock.pending, member))
    && (lock.exclusive != 0 ==> On(opens, lock.exclusive, member))
  }

  predicate AgreesAbove(level: nat, p: Handle, lock: FileLock) {
    && p != 0 && level <= EXCLUSIVE
    && (level == RESERVED ==> lock.reserved == p)
    && (level >= PENDING <==> lock.pending == p)
    && (level == EXCLUSIVE <==> lock.exclusive == p)
  }

  function LockOf(locks: map<Member, FileLock>, member: Member): FileLock {
    if member in locks then locks[member] else FileLock({}, 0, 0, 0)
  }

  ghost predicate LocksAgree(opens: Opens, locks: map<Member, FileLock>) {
    forall m :: LockAgrees(opens, m, LockOf(locks, m))
  }

  /** The connections of a file that hold a slot shared. */
  ghost function Readers(opens: Opens, member: Member, i: nat): set<Handle> {
    set p | p in opens && opens[p].member == member && Reads(opens[p], i)
  }

  /** A file's shared memory, against its connections' bits. */
  ghost predicate MemoryAgrees(opens: Opens, member: Member, memory: Memory) {
    && |memory.readers| == |memory.writer| == SLOTS
    && (forall i: nat :: i < SLOTS ==> memory.readers[i] == |Readers(opens, member, i)|)
    && (forall i: nat :: i < SLOTS && memory.writer[i] != 0 ==> On(opens, memory.writer[i], member) && Writes(opens[memory.writer[i]], i))
    && (forall p, i: nat :: On(opens, p, member) && i < SLOTS && Writes(opens[p], i) ==> memory.writer[i] == p)
    && (forall p :: On(opens, p, member) ==> p != 0)
  }

  ghost predicate MemoriesAgree(opens: Opens, memories: map<Member, Memory>) {
    && (forall m :: m in memories ==> MemoryAgrees(opens, m, memories[m]))
    && (forall p :: p in opens && opens[p].member !in memories ==> opens[p].shm == {})
  }

  /** Bits are held only by connections that mapped the memory and have not left it: so the library asks. */
  ghost predicate Mapped(opens: Opens, memories: map<Member, Memory>) {
    forall p :: p in opens && opens[p].shm != {} ==> Uses(opens[p].member, memories, p)
  }

  predicate Uses(member: Member, memories: map<Member, Memory>, p: Handle) {
    member in memories && p in memories[member].users
  }

  /** No other connection of the file holds a bit. */
  ghost predicate LastHolder(opens: Opens, p: Handle)
    requires p in opens
  {
    forall q :: q != p && On(opens, q, opens[p].member) ==> opens[q].shm == {}
  }

  ghost predicate BitsBound(opens: Opens) {
    forall p, b :: p in opens && b in opens[p].shm ==> b < 2 * SLOTS
  }

  // ----- Records keep agreeing

  /** A record moved with one connection's level. */
  lemma LevelMoves(opens: Opens, locks: map<Member, FileLock>, p: Handle, level: nat, lock: FileLock)
    requires LocksAgree(opens, locks) && p in opens
    requires LockAgrees(AtLevel(opens, p, level), opens[p].member, lock)
    ensures LocksAgree(AtLevel(opens, p, level), locks[opens[p].member := lock])
  {
    var next := AtLevel(opens, p, level);
    var kept := locks[opens[p].member := lock];
    forall m | m != opens[p].member
      ensures LockAgrees(next, m, LockOf(kept, m))
    {
      assert LockAgrees(opens, m, LockOf(locks, m));
      assert forall q :: On(next, q, m) <==> On(opens, q, m);
    }
  }

  /** Levels alone do not touch shared memory. */
  lemma LevelKeepsMemories(opens: Opens, memories: map<Member, Memory>, p: Handle, level: nat)
    requires MemoriesAgree(opens, memories) && p in opens
    ensures MemoriesAgree(AtLevel(opens, p, level), memories)
  {
    var next := AtLevel(opens, p, level);
    forall m | m in memories
      ensures MemoryAgrees(next, m, memories[m])
    {
      assert forall q :: On(next, q, m) <==> On(opens, q, m);
      forall i: nat
        ensures Readers(next, m, i) == Readers(opens, m, i)
      {
      }
    }
  }

  lemma LevelKeepsBits(opens: Opens, p: Handle, level: nat)
    requires SlotsExclude(opens) && BitsBound(opens) && p in opens
    ensures SlotsExclude(AtLevel(opens, p, level)) && BitsBound(AtLevel(opens, p, level))
  {
  }

  /** Bits alone do not touch the file lock. */
  lemma BitsKeepLocks(opens: Opens, locks: map<Member, FileLock>, p: Handle, shm: set<nat>)
    requires LocksAgree(opens, locks) && p in opens
    ensures LocksAgree(Holding(opens, p, shm), locks)
    ensures Excludes(opens) ==> Excludes(Holding(opens, p, shm))
  {
    var next := Holding(opens, p, shm);
    forall m
      ensures LockAgrees(next, m, LockOf(locks, m))
    {
      assert LockAgrees(opens, m, LockOf(locks, m));
      assert forall q :: On(next, q, m) <==> On(opens, q, m);
    }
  }

  function One(held: bool): int {
    if held then 1 else 0
  }

  /** One connection's bit, in its slot's count. */
  lemma ReadersMove(opens: Opens, p: Handle, shm: set<nat>, i: nat)
    requires p in opens
    ensures |Readers(Holding(opens, p, shm), opens[p].member, i)| == |Readers(opens, opens[p].member, i)| - One(i in opens[p].shm) + One(i in shm)
  {
    var m := opens[p].member;
    var before, after := Readers(opens, m, i), Readers(Holding(opens, p, shm), m, i);
    assert before - {p} == after - {p};
    assert |before| == |before - {p}| + One(i in opens[p].shm);
    assert |after| == |after - {p}| + One(i in shm);
  }

  lemma BitsMove(opens: Opens, memories: map<Member, Memory>, p: Handle, shm: set<nat>, memory: Memory)
    requires MemoriesAgree(opens, memories) && p in opens && opens[p].member in memories
    requires MemoryAgrees(Holding(opens, p, shm), opens[p].member, memory)
    ensures MemoriesAgree(Holding(opens, p, shm), memories[opens[p].member := memory])
  {
    var next, kept := Holding(opens, p, shm), memories[opens[p].member := memory];
    forall m | m in kept && m != opens[p].member
      ensures MemoryAgrees(next, m, kept[m])
    {
      assert forall q :: On(next, q, m) <==> On(opens, q, m);
      forall i: nat
        ensures Readers(next, m, i) == Readers(opens, m, i)
      {
      }
    }
  }

  // ----- The strongest lock

  function Strongest(lock: FileLock): nat {
    if lock.exclusive != 0 then EXCLUSIVE
    else if lock.pending != 0 then PENDING
    else if lock.reserved != 0 then RESERVED
    else if |lock.shared| > 0 then SHARED
    else NONE
  }

  /** The strongest lock by the record is the strongest level by the connections. */
  lemma StrongestIs(opens: Opens, member: Member, lock: FileLock)
    requires LockAgrees(opens, member, lock)
    ensures forall p :: On(opens, p, member) ==> opens[p].level <= Strongest(lock)
    ensures Strongest(lock) == NONE || exists p :: On(opens, p, member) && opens[p].level == Strongest(lock)
  {
    forall p | On(opens, p, member)
      ensures opens[p].level <= Strongest(lock)
    {
      assert AgreesAbove(opens[p].level, p, lock);
      assert p in lock.shared <==> opens[p].level >= SHARED;
    }
    if lock.exclusive != 0 {
      assert AgreesAbove(opens[lock.exclusive].level, lock.exclusive, lock);
    } else if lock.pending != 0 {
      assert AgreesAbove(opens[lock.pending].level, lock.pending, lock);
    } else if lock.reserved != 0 {
      assert AgreesAbove(opens[lock.reserved].level, lock.reserved, lock);
    } else if |lock.shared| > 0 {
      var p :| p in lock.shared;
      assert AgreesAbove(opens[p].level, p, lock);
    }
  }

  /** The refusal the record gives is the one the levels give. */
  lemma RefusalIs(opens: Opens, p: Handle, level: nat, lock: FileLock)
    requires Excludes(opens) && Asks(opens, p, level) && LockAgrees(opens, opens[p].member, lock) && opens[p].level < level
    ensures opens[p].level != Strongest(lock) && (Strongest(lock) >= PENDING || level > SHARED)
      <==> if level == SHARED then Other(opens, p, PENDING) else Other(opens, p, RESERVED)
  {
    var m := opens[p].member;
    StrongestIs(opens, m, lock);
    var strongest := Strongest(lock);
    assert On(opens, p, m);
    if strongest != NONE {
      var q :| On(opens, q, m) && opens[q].level == strongest;
      assert q != p ==> Compatible(opens[p].level, opens[q].level);
    }
    forall q | q != p && On(opens, q, m)
      ensures Compatible(opens[p].level, opens[q].level) && opens[q].level <= strongest
    {
    }
  }

  // ----- The calls

  /** How a shared-memory lock goes: done, busy, or an error where the memory was never mapped. */
  datatype ShmAnswer = Done | Busy | NoMemory

  predicate SameUsers(before: map<Member, Memory>, after: map<Member, Memory>) {
    before.Keys == after.Keys && forall m :: m in before ==> before[m].users == after[m].users
  }

  class Files {
    var opens: Opens
    var locks: map<Member, FileLock>
    var memories: map<Member, Memory>

    ghost predicate Valid()
      reads this
    {
      LocksAgree(opens, locks) && MemoriesAgree(opens, memories) && Excludes(opens) && SlotsExclude(opens) && BitsBound(opens)
    }

    constructor ()
      ensures Valid() && opens == map[]
    {
      opens, locks, memories := map[], map[], map[];
    }

    /** `xOpen`, of the member found or made. */
    method Open(p: Handle, member: Member)
      requires Valid() && p != 0 && p !in opens
      modifies this
      ensures Valid() && opens == old(opens)[p := Connection(member, NONE, {})]
    {
      hide MemoriesAgree, SlotsExclude, BitsBound, Excludes;
      OpenKeepsLocks(opens, locks, p, member);
      OpenKeepsMemories(opens, memories, p, member);
      LevelsBound(opens, locks);
      OpenExcludes(opens, p, member);
      opens := opens[p := Connection(member, NONE, {})];
    }

    /** `xLock`. */
    method Lock(p: Handle, level: nat) returns (busy: bool)
      requires Valid() && Asks(opens, p, level)
      modifies this
      ensures Valid() && Answer(opens, busy) == Locked(old(opens), p, level)
    {
      hide LocksAgree, MemoriesAgree, SlotsExclude, BitsBound, Excludes, Other, LockAgrees;
      var open := opens[p];
      var lock := LockOf(locks, open.member);
      if open.level >= level {
        return false;
      }
      LockFound(opens, locks, open.member);
      RefusalIs(opens, p, level, lock);
      var strongest := Strongest(lock);
      if open.level != strongest && (strongest >= PENDING || level > SHARED) {
        return true;
      }
      var next: nat;
      if level == SHARED {
        lock := lock.(shared := lock.shared + {p});
        next, busy := SHARED, false;
      } else if level == RESERVED {
        lock := lock.(reserved := p);
        next, busy := RESERVED, false;
      } else {
        lock := lock.(pending := p);
        next, busy := PENDING, lock.shared - {p} != {};
        if !busy {
          lock := lock.(exclusive := p);
          next := EXCLUSIVE;
        }
      }
      LockTaken(opens, p, level, LockOf(locks, open.member), lock, next, busy);
      LockExcludes(opens, p, level);
      LevelMoves(opens, locks, p, next, lock);
      LevelKeepsMemories(opens, memories, p, next);
      LevelKeepsBits(opens, p, next);
      opens, locks := AtLevel(opens, p, next), locks[open.member := lock];
    }

    /** `xUnlock`. */
    method Unlock(p: Handle, level: nat)
      requires Valid() && p in opens && (level == NONE || level == SHARED)
      modifies this
      ensures Valid() && opens == Unlocked(old(opens), p, level)
    {
      hide LocksAgree, MemoriesAgree, SlotsExclude, BitsBound, Excludes, LockAgrees;
      var open := opens[p];
      var lock := LockOf(locks, open.member);
      if open.level <= level {
        return;
      }
      LockFound(opens, locks, open.member);
      var released := Released(lock, p, level);
      ReleasedAgrees(opens, p, level, lock);
      UnlockExcludes(opens, p, level);
      LevelMoves(opens, locks, p, level, released);
      LevelKeepsMemories(opens, memories, p, level);
      LevelKeepsBits(opens, p, level);
      opens, locks := AtLevel(opens, p, level), locks[open.member := released];
    }

    /** `xCheckReservedLock`. */
    method CheckReservedLock(p: Handle) returns (held: bool)
      requires Valid() && p in opens
      ensures held <==> exists q :: On(opens, q, opens[p].member) && opens[q].level >= RESERVED
    {
      var lock := LockOf(locks, opens[p].member);
      LockFound(opens, locks, opens[p].member);
      StrongestIs(opens, opens[p].member, lock);
      held := lock.reserved != 0 || lock.pending != 0 || lock.exclusive != 0;
      assert held <==> Strongest(lock) >= RESERVED;
    }

    /** `xShmMap`: the connection joins the file's shared memory. */
    method ShmMap(p: Handle)
      requires Valid() && p in opens
      modifies this`memories
      ensures Valid() && Uses(opens[p].member, memories, p)
      ensures old(Mapped(opens, memories)) ==> Mapped(opens, memories)
    {
      var m := opens[p].member;
      var memory := if m in memories then memories[m] else Memory({}, seq(SLOTS, i => 0), seq(SLOTS, i => 0));
      NoneOpen(opens, locks);
      MapAgrees(opens, memories, p, memory);
      memories := memories[m := memory.(users := memory.users + {p})];
    }

    /** `xShmLock`, locking: an error where no connection mapped the file's memory, and otherwise decided
        by the bits alone, whoever mapped it. */
    method ShmLock(p: Handle, want: Want, offset: nat, n: nat) returns (r: ShmAnswer)
      requires Valid() && p in opens && offset + n <= SLOTS
      modifies this`opens, this`memories
      ensures Valid() && SameUsers(old(memories), memories)
      ensures r == NoMemory <==> old(opens)[p].member !in memories
      ensures if r == NoMemory then opens == old(opens) else Answer(opens, r == Busy) == SlotsLocked(old(opens), p, want, offset, n)
      ensures old(Mapped(opens, memories)) && Uses(old(opens)[p].member, memories, p) ==> Mapped(opens, memories)
    {
      hide LocksAgree, MemoriesAgree, SlotsExclude, BitsBound, Excludes, MemoryAgrees, SlotTaken, Bits;
      var open := opens[p];
      if open.member !in memories {
        return NoMemory;
      }
      var memory := memories[open.member];
      MemoryFound(opens, memories, open.member);
      var busy := Taken(opens, p, memory, want, offset, n);
      if busy {
        return Busy;
      }
      var readers, writer, shm := memory.readers, memory.writer, open.shm;
      MemoryShape(opens, open.member, memory);
      if want.Read? {
        readers, shm := AddReader(readers, shm, offset, n);
      } else {
        writer, shm := SetWriter(p, writer, shm, offset, n);
      }
      assert shm == open.shm + Bits(want, offset, n);
      SlotsTakenAgree(opens, p, memory, want, offset, n, Memory(memory.users, readers, writer));
      SlotsLockedExclude(opens, p, want, offset, n);
      BitsMove(opens, memories, p, shm, Memory(memory.users, readers, writer));
      BitsKeepLocks(opens, locks, p, shm);
      BitsStayBound(opens, p, want, offset, n);
      opens, memories := Holding(opens, p, shm), memories[open.member := Memory(memory.users, readers, writer)];
      return Done;
    }

    /** Whether a slot of a range is refused, by the counts and the writers. */
    static method Taken(opens: Opens, p: Handle, memory: Memory, want: Want, offset: nat, n: nat) returns (taken: bool)
      requires p in opens && MemoryAgrees(opens, opens[p].member, memory) && offset + n <= SLOTS
      ensures taken <==> SlotTaken(opens, p, want, offset, n)
    {
      hide MemoryAgrees, Readers;
      MemoryShape(opens, opens[p].member, memory);
      for i := offset to offset + n
        invariant !SlotTaken(opens, p, want, offset, i - offset)
      {
        SlotRefused(opens, p, memory, want, offset, i);
        if memory.writer[i] != 0 && memory.writer[i] != p {
          TakenStays(opens, p, want, offset, i - offset + 1, n);
          return true;
        }
        if want.Write? && memory.readers[i] - One(i in opens[p].shm) > 0 {
          TakenStays(opens, p, want, offset, i - offset + 1, n);
          return true;
        }
      }
      return false;
    }

    static method AddReader(before: seq<int>, held: set<nat>, offset: nat, n: nat) returns (readers: seq<int>, shm: set<nat>)
      requires |before| == SLOTS && offset + n <= SLOTS
      ensures shm == held + Bits(Read, offset, n)
      ensures |readers| == SLOTS && forall j :: 0 <= j < SLOTS ==> readers[j] == before[j] + One(j in shm) - One(j in held)
    {
      readers, shm := before, held;
      for i := offset to offset + n
        invariant shm == held + Bits(Read, offset, i - offset)
        invariant |readers| == SLOTS && forall j :: 0 <= j < SLOTS ==> readers[j] == before[j] + One(j in shm) - One(j in held)
      {
        assert Bits(Read, offset, i + 1 - offset) == Bits(Read, offset, i - offset) + {i};
        if i !in shm {
          readers, shm := readers[i := readers[i] + 1], shm + {i};
        }
      }
    }

    static method SetWriter(p: Handle, before: seq<Handle>, held: set<nat>, offset: nat, n: nat) returns (writer: seq<Handle>, shm: set<nat>)
      requires |before| == SLOTS && offset + n <= SLOTS
      ensures shm == held + Bits(Write, offset, n)
      ensures |writer| == SLOTS && forall j :: 0 <= j < SLOTS ==> writer[j] == if offset <= j < offset + n then p else before[j]
    {
      writer, shm := before, held;
      for i := offset to offset + n
        invariant shm == held + Bits(Write, offset, i - offset)
        invariant |writer| == SLOTS && forall j :: 0 <= j < SLOTS ==> writer[j] == if offset <= j < i then p else before[j]
      {
        assert Bits(Write, offset, i + 1 - offset) == Bits(Write, offset, i - offset) + {SLOTS + i};
        writer, shm := writer[i := p], shm + {SLOTS + i};
      }
    }

    /** `xShmLock`, unlocking. */
    method ShmUnlock(p: Handle, want: Want, offset: nat, n: nat) returns (r: ShmAnswer)
      requires Valid() && p in opens && offset + n <= SLOTS
      modifies this`opens, this`memories
      ensures Valid() && SameUsers(old(memories), memories)
      ensures r == if old(opens)[p].member !in memories then NoMemory else Done
      ensures opens == if r == NoMemory then old(opens) else Holding(old(opens), p, old(opens)[p].shm - Bits(want, offset, n))
      ensures old(Mapped(opens, memories)) ==> Mapped(opens, memories)
    {
      hide LocksAgree, MemoriesAgree, SlotsExclude, BitsBound, Excludes, MemoryAgrees, Bits;
      var open := opens[p];
      if open.member !in memories {
        return NoMemory;
      }
      var memory := memories[open.member];
      MemoryFound(opens, memories, open.member);
      MemoryShape(opens, open.member, memory);
      var readers, writer, shm := DropBits(p, memory.readers, memory.writer, open.shm, want, offset, n);
      BitsDroppedAgree(opens, p, memory, shm, Memory(memory.users, readers, writer));
      FewerBitsExclude(opens, p, shm);
      BitsMove(opens, memories, p, shm, Memory(memory.users, readers, writer));
      BitsKeepLocks(opens, locks, p, shm);
      FewerBitsBound(opens, p, shm);
      opens, memories := Holding(opens, p, shm), memories[open.member := Memory(memory.users, readers, writer)];
      return Done;
    }

    static method DropBits(p: Handle, readersIn: seq<int>, writerIn: seq<Handle>, held: set<nat>, want: Want, offset: nat, n: nat)
      returns (readers: seq<int>, writer: seq<Handle>, shm: set<nat>)
      requires |readersIn| == |writerIn| == SLOTS && offset + n <= SLOTS
      ensures shm == held - Bits(want, offset, n)
      ensures Dropped(p, readersIn, writerIn, held, shm, readers, writer)
    {
      readers, writer, shm := readersIn, writerIn, held;
      for i := offset to offset + n
        invariant shm == held - Bits(want, offset, i - offset)
        invariant Dropped(p, readersIn, writerIn, held, shm, readers, writer)
      {
        assert Bits(want, offset, i + 1 - offset) == Bits(want, offset, i - offset) + {if want.Read? then i else SLOTS + i};
        if want.Read? && i in shm {
          readers, shm := readers[i := readers[i] - 1], shm - {i};
        }
        if want.Write? && SLOTS + i in shm {
          writer, shm := writer[i := 0], shm - {SLOTS + i};
        }
      }
    }

    /** `xShmUnmap`. The last to leave drops the memory: the records then still agree exactly where no
        connection that did not map it holds a bit. */
    method ShmUnmap(p: Handle)
      requires Valid() && p in opens
      modifies this`opens, this`memories
      ensures opens == Holding(old(opens), p, {}) && !Uses(opens[p].member, memories, p)
      ensures memories.Keys == old(memories).Keys || memories.Keys == old(memories).Keys - {opens[p].member}
      ensures opens[p].member in old(memories) ==> (opens[p].member in memories <==> old(memories)[opens[p].member].users - {p} != {})
      ensures Valid() <==> opens[p].member in memories || LastHolder(opens, p)
      ensures old(Mapped(opens, memories)) ==> Valid() && Mapped(opens, memories)
    {
      var member := opens[p].member;
      if member !in memories {
        assert Holding(opens, p, {}) == opens;
        return;
      }
      hide LocksAgree, MemoriesAgree, SlotsExclude, BitsBound, Excludes, MemoryAgrees, Mapped, LastHolder, Uses, SameUsers;
      LetGo(p);
      MemoryKept(old(memories), memories, member);
      var left := memories[member];
      LeaveAgrees(opens, memories, p, left);
      MappedLeaves(old(opens), old(memories), memories, p, left);
      memories := if left.users - {p} == {} then memories - {member} else memories[member := left.(users := left.users - {p})];
    }

    /** A connection's bits let go. */
    method LetGo(p: Handle)
      requires Valid() && p in opens && opens[p].member in memories
      modifies this`opens, this`memories
      ensures Valid() && opens == Holding(old(opens), p, {}) && SameUsers(old(memories), memories)
    {
      hide LocksAgree, MemoriesAgree, SlotsExclude, BitsBound, Excludes, MemoryAgrees, Dropped;
      var member := opens[p].member;
      var memory := memories[member];
      MemoryFound(opens, memories, member);
      MemoryShape(opens, member, memory);
      var readers, writer := DropAll(opens, p, memory);
      var left := Memory(memory.users, readers, writer);
      BitsDroppedAgree(opens, p, memory, {}, left);
      FewerBitsExclude(opens, p, {});
      BitsMove(opens, memories, p, {}, left);
      BitsKeepLocks(opens, locks, p, {});
      FewerBitsBound(opens, p, {});
      opens, memories := Holding(opens, p, {}), memories[member := left];
    }

    static method DropAll(opens: Opens, p: Handle, memory: Memory) returns (readers: seq<int>, writer: seq<Handle>)
      requires p in opens && MemoryAgrees(opens, opens[p].member, memory)
      ensures Dropped(p, memory.readers, memory.writer, opens[p].shm, {}, readers, writer)
    {
      readers, writer := memory.readers, memory.writer;
      for i := 0 to SLOTS
        invariant |readers| == |writer| == SLOTS
        invariant forall j :: 0 <= j < SLOTS ==> readers[j] == memory.readers[j] - if j < i then One(j in opens[p].shm) else 0
        invariant forall j :: 0 <= j < SLOTS ==> writer[j] == if j < i && memory.writer[j] == p then 0 else memory.writer[j]
      {
        if i in opens[p].shm {
          readers := readers[i := readers[i] - 1];
        }
        if writer[i] == p {
          writer := writer[i := 0];
        }
      }
      forall j: nat | j < SLOTS
        ensures memory.writer[j] == p <==> SLOTS + j in opens[p].shm
      {
        assert On(opens, p, opens[p].member);
        assert Writes(opens[p], j) ==> memory.writer[j] == p;
      }
    }

    /** `xClose`, which lets the file lock go and leaves shared memory as it is: the records still agree
        exactly where the connection held no bit. `drop` is whether the member is open nowhere any more. */
    method Close(p: Handle, drop: bool)
      requires Valid() && (drop ==> p in opens && forall q :: On(opens, q, opens[p].member) ==> q == p)
      modifies this`opens, this`locks
      ensures opens == old(opens) - {p}
      ensures Valid() <==> p !in old(opens) || old(opens)[p].shm == {}
      ensures old(Mapped(opens, memories)) ==> Mapped(opens, memories)
    {
      if p !in opens {
        assert opens - {p} == opens;
        return;
      }
      var open := opens[p];
      var released := Released(LockOf(locks, open.member), p, NONE);
      hide LocksAgree, MemoriesAgree, SlotsExclude, BitsBound, Excludes, Released;
      if drop {
        DropKeepsLocks(opens, locks, p);
      } else {
        CloseKeepsLocks(opens, locks, p, released);
      }
      if opens[p].shm == {} {
        CloseKeepsMemories(opens, memories, p);
      } else {
        CloseLeavesBits(opens, memories, p);
      }
      CloseExcludes(opens, p);
      locks := if drop then locks - {open.member} else if open.member in locks then locks[open.member := released] else locks;
      opens := opens - {p};
    }
  }

  // ----- What each call's record keeps

  lemma LockFound(opens: Opens, locks: map<Member, FileLock>, member: Member)
    requires LocksAgree(opens, locks)
    ensures LockAgrees(opens, member, LockOf(locks, member))
  {
  }

  lemma NoneOpen(opens: Opens, locks: map<Member, FileLock>)
    requires LocksAgree(opens, locks)
    ensures forall q :: q in opens ==> q != 0
  {
    forall q | q in opens
      ensures q != 0
    {
      LockFound(opens, locks, opens[q].member);
      assert On(opens, q, opens[q].member);
    }
  }

  lemma LevelsBound(opens: Opens, locks: map<Member, FileLock>)
    requires LocksAgree(opens, locks)
    ensures forall q :: q in opens ==> opens[q].level <= EXCLUSIVE
  {
    forall q | q in opens
      ensures opens[q].level <= EXCLUSIVE
    {
      LockFound(opens, locks, opens[q].member);
      assert On(opens, q, opens[q].member);
    }
  }

  lemma MemoryFound(opens: Opens, memories: map<Member, Memory>, member: Member)
    requires MemoriesAgree(opens, memories) && member in memories
    ensures MemoryAgrees(opens, member, memories[member])
  {
  }

  lemma MemoryShape(opens: Opens, member: Member, memory: Memory)
    requires MemoryAgrees(opens, member, memory)
    ensures |memory.readers| == |memory.writer| == SLOTS
  {
  }

  lemma OpenKeepsLocks(opens: Opens, locks: map<Member, FileLock>, p: Handle, member: Member)
    requires LocksAgree(opens, locks) && p != 0 && p !in opens
    ensures LocksAgree(opens[p := Connection(member, NONE, {})], locks)
  {
    var next := opens[p := Connection(member, NONE, {})];
    assert forall q, k :: q != p ==> (On(next, q, k) <==> On(opens, q, k));
    assert forall k :: !On(opens, p, k);
    forall m
      ensures LockAgrees(next, m, LockOf(locks, m))
    {
      LockFound(opens, locks, m);
    }
  }

  lemma OpenKeepsMemories(opens: Opens, memories: map<Member, Memory>, p: Handle, member: Member)
    requires MemoriesAgree(opens, memories) && p != 0 && p !in opens
    ensures MemoriesAgree(opens[p := Connection(member, NONE, {})], memories)
  {
    var next := opens[p := Connection(member, NONE, {})];
    assert forall q, k :: q != p ==> (On(next, q, k) <==> On(opens, q, k));
    forall m | m in memories
      ensures MemoryAgrees(next, m, memories[m])
    {
      MemoryFound(opens, memories, m);
      forall i: nat
        ensures Readers(next, m, i) == Readers(opens, m, i)
      {
      }
    }
  }

  lemma OpenExcludes(opens: Opens, p: Handle, member: Member)
    requires Excludes(opens) && SlotsExclude(opens) && BitsBound(opens) && p !in opens
    requires forall q :: q in opens ==> opens[q].level <= EXCLUSIVE
    ensures BitsBound(opens[p := Connection(member, NONE, {})])
    ensures Excludes(opens[p := Connection(member, NONE, {})]) && SlotsExclude(opens[p := Connection(member, NONE, {})])
  {
  }

  /** A grant's record and level. */
  lemma LockTaken(opens: Opens, p: Handle, level: nat, lock: FileLock, taken: FileLock, next: nat, busy: bool)
    requires Excludes(opens) && Asks(opens, p, level) && LockAgrees(opens, opens[p].member, lock) && opens[p].level < level
    requires if level == SHARED then !Other(opens, p, PENDING) else !Other(opens, p, RESERVED)
    requires level == SHARED ==> taken == lock.(shared := lock.shared + {p}) && next == SHARED && !busy
    requires level == RESERVED ==> taken == lock.(reserved := p) && next == RESERVED && !busy
    requires level == EXCLUSIVE ==> busy == (lock.shared - {p} != {})
    requires level == EXCLUSIVE && busy ==> taken == lock.(pending := p) && next == PENDING
    requires level == EXCLUSIVE && !busy ==> taken == lock.(pending := p, exclusive := p) && next == EXCLUSIVE
    ensures LockAgrees(AtLevel(opens, p, next), opens[p].member, taken)
    ensures Locked(opens, p, level) == Answer(AtLevel(opens, p, next), busy)
  {
    var m, after := opens[p].member, AtLevel(opens, p, next);
    assert forall q :: On(after, q, m) <==> On(opens, q, m);
    assert On(opens, p, m);
    if level == EXCLUSIVE {
      if q :| q in lock.shared - {p} {
        assert On(opens, q, m);
      }
      if Other(opens, p, SHARED) {
        var q :| q != p && On(opens, q, m) && opens[q].level >= SHARED;
        assert q in lock.shared - {p};
      }
      assert busy <==> Other(opens, p, SHARED);
    }
    OthersBelow(opens, p, if level == SHARED then PENDING else RESERVED);
    forall q | On(after, q, m)
      ensures AgreesAbove(after[q].level, q, taken)
    {
      assert AgreesAbove(opens[q].level, q, lock);
    }
  }

  function Released(lock: FileLock, p: Handle, level: nat): FileLock {
    FileLock(if level == NONE then lock.shared - {p} else lock.shared,
             if lock.reserved == p then 0 else lock.reserved,
             if lock.pending == p then 0 else lock.pending,
             if lock.exclusive == p then 0 else lock.exclusive)
  }

  lemma ReleasedAgrees(opens: Opens, p: Handle, level: nat, lock: FileLock)
    requires p in opens && LockAgrees(opens, opens[p].member, lock) && level < opens[p].level && (level == NONE || level == SHARED)
    ensures LockAgrees(AtLevel(opens, p, level), opens[p].member, Released(lock, p, level))
  {
    var m, after := opens[p].member, AtLevel(opens, p, level);
    assert forall q :: On(after, q, m) <==> On(opens, q, m);
    forall q | On(after, q, m)
      ensures AgreesAbove(after[q].level, q, Released(lock, p, level))
    {
      assert AgreesAbove(opens[q].level, q, lock);
    }
  }

  lemma MapAgrees(opens: Opens, memories: map<Member, Memory>, p: Handle, memory: Memory)
    requires MemoriesAgree(opens, memories) && p in opens && forall q :: q in opens ==> q != 0
    requires var m := opens[p].member;
      if m in memories then memory == memories[m] else memory == Memory({}, seq(SLOTS, i => 0), seq(SLOTS, i => 0))
    ensures MemoriesAgree(opens, memories[opens[p].member := memory.(users := memory.users + {p})])
  {
    var m := opens[p].member;
    if m !in memories {
      forall i: nat
        ensures Readers(opens, m, i) == {}
      {
      }
    }
  }

  /** A slot's refusal by its count and writer is the refusal by the bits. */
  lemma SlotRefused(opens: Opens, p: Handle, memory: Memory, want: Want, offset: nat, i: nat)
    requires p in opens && MemoryAgrees(opens, opens[p].member, memory) && offset <= i < SLOTS
    requires !SlotTaken(opens, p, want, offset, i - offset)
    ensures SlotTaken(opens, p, want, offset, i - offset + 1)
      <==> (memory.writer[i] != 0 && memory.writer[i] != p) || (want.Write? && memory.readers[i] - One(i in opens[p].shm) > 0)
  {
    var m := opens[p].member;
    var readers := Readers(opens, m, i);
    assert |readers| == |readers - {p}| + One(i in opens[p].shm);
    if want.Write? && |readers - {p}| > 0 {
      var q :| q in readers - {p};
      assert On(opens, q, m) && Reads(opens[q], i);
    }
    if memory.writer[i] != 0 && memory.writer[i] != p {
      assert On(opens, memory.writer[i], m) && Writes(opens[memory.writer[i]], i);
    }
    if SlotTaken(opens, p, want, offset, i - offset + 1) {
      var q, j: nat :| q != p && On(opens, q, m) && offset <= j < i + 1 && (Writes(opens[q], j) || (want.Write? && Reads(opens[q], j)));
      assert j == i;
      assert Reads(opens[q], i) ==> q in readers - {p};
      assert Writes(opens[q], i) ==> memory.writer[i] == q && q != 0;
    }
  }

  lemma TakenStays(opens: Opens, p: Handle, want: Want, offset: nat, n: nat, more: nat)
    requires p in opens && n <= more && SlotTaken(opens, p, want, offset, n)
    ensures SlotTaken(opens, p, want, offset, more)
  {
  }

  /** Slots granted, in the counts and the writers. */
  lemma SlotsTakenAgree(opens: Opens, p: Handle, memory: Memory, want: Want, offset: nat, n: nat, next: Memory)
    requires p in opens && MemoryAgrees(opens, opens[p].member, memory) && offset + n <= SLOTS
    requires !SlotTaken(opens, p, want, offset, n) && BitsBound(opens)
    requires var shm := opens[p].shm + Bits(want, offset, n);
      next.users == memory.users && |next.readers| == |next.writer| == SLOTS
      && (if want.Read? then next.writer == memory.writer && forall j :: 0 <= j < SLOTS ==> next.readers[j] == memory.readers[j] + One(j in shm) - One(j in opens[p].shm)
          else next.readers == memory.readers && forall j :: 0 <= j < SLOTS ==> next.writer[j] == if offset <= j < offset + n then p else memory.writer[j])
    ensures MemoryAgrees(Holding(opens, p, opens[p].shm + Bits(want, offset, n)), opens[p].member, next)
  {
    var m, shm := opens[p].member, opens[p].shm + Bits(want, offset, n);
    var after := Holding(opens, p, shm);
    assert forall q :: On(after, q, m) <==> On(opens, q, m);
    forall i: nat | i < SLOTS
      ensures next.readers[i] == |Readers(after, m, i)|
    {
      ReadersMove(opens, p, shm, i);
      assert want.Write? ==> i !in Bits(want, offset, n);
    }
    forall i: nat | i < SLOTS
      ensures next.writer[i] != 0 ==> On(after, next.writer[i], m) && Writes(after[next.writer[i]], i)
      ensures forall q :: On(after, q, m) && Writes(after[q], i) ==> next.writer[i] == q
    {
      assert SLOTS + i in Bits(want, offset, n) <==> want.Write? && offset <= i < offset + n;
      assert forall q :: q != p && On(opens, q, m) && Writes(opens[q], i) && offset <= i < offset + n ==> SlotTaken(opens, p, want, offset, n);
    }
  }

  lemma BitsStayBound(opens: Opens, p: Handle, want: Want, offset: nat, n: nat)
    requires BitsBound(opens) && p in opens && offset + n <= SLOTS
    ensures BitsBound(Holding(opens, p, opens[p].shm + Bits(want, offset, n)))
  {
  }

  lemma FewerBitsBound(opens: Opens, p: Handle, shm: set<nat>)
    requires BitsBound(opens) && p in opens && shm <= opens[p].shm
    ensures BitsBound(Holding(opens, p, shm))
  {
  }

  /** The counts and writers after one connection's bits fall from `held` to `shm`. */
  ghost predicate Dropped(p: Handle, readers: seq<int>, writer: seq<Handle>, held: set<nat>, shm: set<nat>, readersOut: seq<int>, writerOut: seq<Handle>) {
    && |readers| == |writer| == |readersOut| == |writerOut| == SLOTS && shm <= held
    && (forall j :: 0 <= j < SLOTS ==> readersOut[j] == readers[j] - One(j in held) + One(j in shm))
    && (forall j :: 0 <= j < SLOTS ==> writerOut[j] == if SLOTS + j in held - shm then 0 else writer[j])
  }

  lemma BitsDroppedAgree(opens: Opens, p: Handle, memory: Memory, shm: set<nat>, next: Memory)
    requires p in opens && MemoryAgrees(opens, opens[p].member, memory) && next.users == memory.users
    requires Dropped(p, memory.readers, memory.writer, opens[p].shm, shm, next.readers, next.writer)
    ensures MemoryAgrees(Holding(opens, p, shm), opens[p].member, next)
  {
    var m, after := opens[p].member, Holding(opens, p, shm);
    assert forall q :: On(after, q, m) <==> On(opens, q, m);
    assert On(opens, p, m);
    forall i: nat | i < SLOTS
      ensures next.readers[i] == |Readers(after, m, i)|
    {
      ReadersMove(opens, p, shm, i);
    }
    forall i: nat | i < SLOTS
      ensures next.writer[i] != 0 ==> On(after, next.writer[i], m) && Writes(after[next.writer[i]], i)
      ensures forall q :: On(after, q, m) && Writes(after[q], i) ==> next.writer[i] == q
    {
      assert Writes(opens[p], i) ==> memory.writer[i] == p;
    }
  }

  lemma MemoryKept(before: map<Member, Memory>, after: map<Member, Memory>, member: Member)
    requires SameUsers(before, after) && member in before
    ensures member in after && after[member].users == before[member].users && after.Keys == before.Keys
  {
  }

  /** A connection that has let its bits go leaves the users. */
  lemma MappedLeaves(opens: Opens, before: map<Member, Memory>, memories: map<Member, Memory>, p: Handle, left: Memory)
    requires p in opens && opens[p].member in memories && memories[opens[p].member] == left && SameUsers(before, memories)
    ensures
      var after := if left.users - {p} == {} then memories - {opens[p].member} else memories[opens[p].member := left.(users := left.users - {p})];
      && !Uses(opens[p].member, after, p)
      && (Mapped(opens, before) ==> Mapped(Holding(opens, p, {}), after) && (left.users - {p} == {} ==> LastHolder(Holding(opens, p, {}), p)))
  {
    var next := Holding(opens, p, {});
    if Mapped(opens, before) {
      forall q | q in next && next[q].shm != {}
        ensures Uses(next[q].member, memories, q) && (next[q].member == opens[p].member ==> q in left.users - {p})
      {
        assert Uses(opens[q].member, before, q);
      }
    }
  }

  /** A connection without bits leaves. */
  lemma LeaveAgrees(opens: Opens, memories: map<Member, Memory>, p: Handle, memory: Memory)
    requires MemoriesAgree(opens, memories) && p in opens && opens[p].member in memories && memories[opens[p].member] == memory
    requires opens[p].shm == {}
    ensures MemoriesAgree(opens, memories - {opens[p].member}) <==> LastHolder(opens, p)
    ensures MemoriesAgree(opens, memories[opens[p].member := memory.(users := memory.users - {p})])
  {
    if LastHolder(opens, p) {
      forall q | q in opens && opens[q].member == opens[p].member
        ensures opens[q].shm == {}
      {
        assert On(opens, q, opens[p].member);
      }
    }
  }

  lemma LockLeaves(opens: Opens, p: Handle, member: Member, lock: FileLock)
    requires LockAgrees(opens, member, lock) && p in opens
    ensures LockAgrees(opens - {p}, member, if member == opens[p].member then Released(lock, p, NONE) else lock)
  {
    var next := opens - {p};
    assert forall q :: On(next, q, member) <==> On(opens, q, member) && q != p;
    forall q | On(next, q, member)
      ensures AgreesAbove(next[q].level, q, if member == opens[p].member then Released(lock, p, NONE) else lock)
    {
      assert AgreesAbove(opens[q].level, q, lock);
    }
  }

  lemma CloseKeepsLocks(opens: Opens, locks: map<Member, FileLock>, p: Handle, released: FileLock)
    requires LocksAgree(opens, locks) && p in opens && released == Released(LockOf(locks, opens[p].member), p, NONE)
    ensures LocksAgree(opens - {p}, if opens[p].member in locks then locks[opens[p].member := released] else locks)
  {
    hide LockAgrees;
    var m := opens[p].member;
    var kept := if m in locks then locks[m := released] else locks;
    assert m !in locks ==> released.shared == {};
    forall k
      ensures LockAgrees(opens - {p}, k, LockOf(kept, k))
    {
      LockFound(opens, locks, k);
      LockLeaves(opens, p, k, LockOf(locks, k));
    }
  }

  lemma DropKeepsLocks(opens: Opens, locks: map<Member, FileLock>, p: Handle)
    requires LocksAgree(opens, locks) && p in opens && forall q :: On(opens, q, opens[p].member) ==> q == p
    ensures LocksAgree(opens - {p}, locks - {opens[p].member})
  {
    var m := opens[p].member;
    forall k
      ensures LockAgrees(opens - {p}, k, LockOf(locks - {m}, k))
    {
      if k == m {
        forall q
          ensures !On(opens - {p}, q, m)
        {
          assert On(opens - {p}, q, m) ==> On(opens, q, m) && q != p;
        }
      } else {
        LockFound(opens, locks, k);
        LockLeaves(opens, p, k, LockOf(locks, k));
      }
    }
  }

  lemma CloseKeepsMemories(opens: Opens, memories: map<Member, Memory>, p: Handle)
    requires MemoriesAgree(opens, memories) && p in opens
    requires opens[p].shm == {}
    ensures MemoriesAgree(opens - {p}, memories)
  {
    var next := opens - {p};
    assert forall q, k :: On(next, q, k) <==> On(opens, q, k) && q != p;
    assert On(opens, p, opens[p].member);
    forall k | k in memories
      ensures MemoryAgrees(next, k, memories[k])
    {
      MemoryFound(opens, memories, k);
      forall i: nat
        ensures Readers(next, k, i) == Readers(opens, k, i)
      {
      }
    }
  }

  /** Bits held at a close stay in the counts and the writers, of nobody. */
  lemma CloseLeavesBits(opens: Opens, memories: map<Member, Memory>, p: Handle)
    requires MemoriesAgree(opens, memories) && BitsBound(opens) && p in opens && opens[p].shm != {}
    ensures !MemoriesAgree(opens - {p}, memories)
  {
    var b, m := LeastBit(opens, p), opens[p].member;
    assert MemoryAgrees(opens, m, memories[m]);
    assert On(opens, p, m);
    if b < SLOTS {
      var before, after := Readers(opens, m, b), Readers(opens - {p}, m, b);
      assert p in before && after == before - {p};
      assert memories[m].readers[b] == |before| != |after|;
    } else {
      assert Writes(opens[p], b - SLOTS);
      assert memories[m].writer[b - SLOTS] == p;
    }
  }

  ghost function LeastBit(opens: Opens, p: Handle): (b: nat)
    requires p in opens && opens[p].shm != {} && BitsBound(opens)
    ensures b in opens[p].shm && b < 2 * SLOTS
  {
    var b :| b in opens[p].shm;
    b
  }

  lemma CloseExcludes(opens: Opens, p: Handle)
    requires Excludes(opens) && SlotsExclude(opens) && BitsBound(opens)
    ensures Excludes(opens - {p}) && SlotsExclude(opens - {p}) && BitsBound(opens - {p})
  {
  }
}
