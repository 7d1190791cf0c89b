/** Any number of threads running my_malloc, my_free and my_realloc, one atomic step at a time,
    in any of the three concurrency stages. */
module Threads {
  import opened Machine
  import opened BlockTags
  import opened FreeLists
  import opened HeapModel
  import opened Chains
  import opened MemoryPool
  import opened SlotSystem
  import GP = GeneralPath
  import TC = ThreadCache

  // ---- States ------------------------------------------------------------------------------

  /** The compiled stage, the addresses of the pools, and the arena size. */
  datatype Config = Config(stage: int, addr: seq<int>, arenaSize: int)

  datatype Mutex = GlobalMutex | GeneralMutex | PoolMutex(i: nat)

  function PoolLock(cfg: Config, i: nat): Mutex {
    if cfg.stage == 1 then GlobalMutex else PoolMutex(i)
  }

  function GeneralLock(cfg: Config): Mutex {
    if cfg.stage == 1 then GlobalMutex else GeneralMutex
  }

  /** Where a thread stands. A label ending in Wait is about to lock; Leave is about to
      unlock m and go on at next. */
  datatype Label =
    | Idle
    // my_malloc
    | Calling | RefillWait | Refilling | Installing | PoolWait | PoolAlloc
    | GeneralWait | GeneralAlloc | Returning
    // my_free
    | FreeTag | CacheFree | Detaching | FlushWait | Flushing
    | PoolFreeWait | PoolFree | GeneralFreeWait | GeneralFree | Freed
    // my_realloc
    | ReallocTag | ResizeWait | Resizing | Copying
    | Leave(m: Mutex, next: Label)

  /** A thread's registers. `ptr` is being freed, `result` will be returned, `source` is being
      reallocated; each is null when unused. `size` is the payload size my_realloc read,
      and `data` is a copy of the payload at `source` when the call began, kept for the specification. */
  datatype Thread = Thread(at: Label, i: nat, n: int, ptr: int, result: int, source: int, size: int, data: map<int, int>)

  const IDLE_THREAD := Thread(Idle, 0, 0, 0, 0, 0, 0, map[])

  /** The shared state. `held` are the pointers clients hold and are not in any call; `head` is
      the register that starts the free list of the general path. */
  datatype Sys = Sys(threads: map<nat, Thread>, owner: map<Mutex, nat>, words: Words, os: Os,
                     sl: Slots, heap: Heap, held: set<int>, head: int)

  ghost function Put(s: Sys, t: nat, th: Thread): Sys {
    s.(threads := s.threads[t := th])
  }

  // ---- Pointers ----------------------------------------------------------------------------

  ghost predicate PtrLive(s: Sys, p: int) {
    p - HEADER in s.sl.live || IsLive(s.heap, p - HEADER)
  }

  /** The usable size of a live pointer. */
  ghost function Cap(s: Sys, p: int): int {
    if p - HEADER in s.sl.live then Payload(s.sl.live[p - HEADER])
    else if p - HEADER in s.heap.blocks then s.heap.blocks[p - HEADER].size
    else 0
  }

  /** The words of a payload, by offset. */
  ghost function Snapshot(words: Words, p: int, size: int): map<int, int> {
    map k | 0 <= k < size && k % 8 == 0 && p + k in words :: words[p + k]
  }

  ghost predicate DataAt(words: Words, p: int, data: map<int, int>) {
    forall k | k in data :: p + k in words && words[p + k] == data[k]
  }

  // ---- Locks -------------------------------------------------------------------------------

  function WaitsFor(cfg: Config, th: Thread): Option<Mutex> {
    match th.at
    case RefillWait => Some(PoolLock(cfg, th.i))
    case PoolWait => Some(PoolLock(cfg, th.i))
    case FlushWait => Some(PoolLock(cfg, th.i))
    case PoolFreeWait => Some(PoolLock(cfg, th.i))
    case GeneralWait => Some(GeneralLock(cfg))
    case GeneralFreeWait => Some(GeneralLock(cfg))
    case ResizeWait => Some(GeneralLock(cfg))
    case _ => None
  }

  function Entered(at: Label): Label {
    match at
    case RefillWait => Refilling
    case PoolWait => PoolAlloc
    case FlushWait => Flushing
    case PoolFreeWait => PoolFree
    case GeneralWait => GeneralAlloc
    case GeneralFreeWait => GeneralFree
    case ResizeWait => Resizing
    case _ => at
  }

  function Holds(cfg: Config, th: Thread): Option<Mutex> {
    match th.at
    case Refilling => Some(PoolLock(cfg, th.i))
    case PoolAlloc => Some(PoolLock(cfg, th.i))
    case Flushing => Some(PoolLock(cfg, th.i))
    case PoolFree => Some(PoolLock(cfg, th.i))
    case GeneralAlloc => Some(GeneralLock(cfg))
    case GeneralFree => Some(GeneralLock(cfg))
    case Resizing => Some(GeneralLock(cfg))
    case Leave(m, _) => Some(m)
    case _ => None
  }

  ghost predicate Acquire(cfg: Config, s: Sys, t: nat, s': Sys) {
    && t in s.threads
    && var th := s.threads[t];
    && WaitsFor(cfg, th).Some? && WaitsFor(cfg, th).value !in s.owner
    && s' == Put(s.(owner := s.owner[WaitsFor(cfg, th).value := t]), t, th.(at := Entered(th.at)))
  }

  ghost predicate Unlock(s: Sys, t: nat, s': Sys) {
    && t in s.threads
    && var th := s.threads[t];
    && th.at.Leave?
    && s' == Put(s.(owner := s.owner - {th.at.m}), t, th.(at := th.at.next))
  }

  // ---- my_malloc ---------------------------------------------------------------------------

  ghost predicate StartMalloc(s: Sys, t: nat, n: int, s': Sys) {
    && t in s.threads && s.threads[t].at.Idle? && 0 <= n <= MAX_REQUEST
    && s' == Put(s, t, IDLE_THREAD.(at := Calling, n := n))
  }

  /** Routing by size: the general path, the locked pool, this thread's cache, or a refill. */
  ghost predicate Dispatch(cfg: Config, s: Sys, t: nat, s': Sys) {
    && t in s.threads && s.threads[t].at.Calling?
    && var th := s.threads[t]; var i := ClassFor(th.n); var p := InCache(t, i);
    if i == CLASSES then
      s' == Put(s, t, th.(at := GeneralWait))
    else if cfg.stage != 3 then
      s' == Put(s, t, th.(at := PoolWait, i := i))
    else if At(s.sl, p) == [] then
      s' == Put(s, t, th.(at := RefillWait, i := i))
    else
      var x := At(s.sl, p)[0];
      && i < |cfg.addr|
      && s' == Put(s.(sl := PopSlots(s.sl, p), words := s.words[x := cfg.addr[i]]), t,
                   th.(at := Returning, i := i, result := x + SLOT_HEADER))
  }

  /** One turn of the refill loop: the pool's first free slot joins the batch. */
  ghost predicate RefillTake(s: Sys, t: nat, s': Sys) {
    && t in s.threads && s.threads[t].at.Refilling?
    && var th := s.threads[t]; var p, q := InPool(th.i), InFlight(t, th.i);
    && At(s.sl, p) != [] && |At(s.sl, q)| < TC.BATCH
    && var x, batch := At(s.sl, p)[0], At(s.sl, q); var w := s.words[x := 0];
    s' == s.(sl := Transfer(s.sl, p, At(s.sl, p)[1..], q, batch + [x]),
             words := if batch == [] then w else w[Last(batch) := x])
  }

  /** Whether a thread inside a pool's lock needs a slot the pool does not have. */
  ghost predicate NeedsArena(s: Sys, t: nat) {
    && t in s.threads
    && var th := s.threads[t];
    && (th.at.PoolAlloc? || (th.at.Refilling? && |At(s.sl, InFlight(t, th.i))| < TC.BATCH))
    && At(s.sl, InPool(th.i)) == []
  }

  /** The link word a chain gives to the slot at w. */
  ghost function LinkIn(chain: seq<int>, w: int): int {
    if exists k :: 0 <= k < |chain| && chain[k] == w then
      var k :| 0 <= k < |chain| && chain[k] == w;
      LinkTo(chain, k + 1)
    else 0
  }

  /** A fresh arena: zero, but for the links of its slots. */
  ghost function ArenaWords(r: Region, total: int): Words
    requires 0 < total
  {
    map w | w in WordsOf(r) :: LinkIn(Carved(r.base, r.size, total), w)
  }

  ghost predicate ExpandGranted(s: Sys, t: nat, s': Sys) {
    && NeedsArena(s, t)
    && var i := s.threads[t].i;
    var (answer, os') := s.os.Ask(Total(i) * SLOTS_PER_ARENA);
    && answer.Some?
    && s' == s.(os := os', sl := ExpandSlots(s.sl, i, answer.value), words := s.words + ArenaWords(answer.value, Total(i)))
  }

  ghost predicate ExpandRefused(cfg: Config, s: Sys, t: nat, s': Sys) {
    && NeedsArena(s, t)
    && var th := s.threads[t];
    var (answer, os') := s.os.Ask(Total(th.i) * SLOTS_PER_ARENA);
    && answer.None?
    && s' == Put(s.(os := os'), t, th.(at := Leave(PoolLock(cfg, th.i), if th.at.PoolAlloc? then Returning else Installing)))
  }

  ghost predicate RefillFull(cfg: Config, s: Sys, t: nat, s': Sys) {
    && t in s.threads && s.threads[t].at.Refilling?
    && var th := s.threads[t];
    && |At(s.sl, InFlight(t, th.i))| == TC.BATCH
    && s' == Put(s, t, th.(at := Leave(PoolLock(cfg, th.i), Installing)))
  }

  /** The batch becomes the cache, and the call goes on from it; an empty batch fails. */
  ghost predicate Install(s: Sys, t: nat, s': Sys) {
    && t in s.threads && s.threads[t].at.Installing?
    && var th := s.threads[t]; var p, q := InCache(t, th.i), InFlight(t, th.i);
    if At(s.sl, q) == [] then s' == Put(s, t, th.(at := Returning))
    else s' == Put(s.(sl := Transfer(s.sl, p, At(s.sl, q), q, [])), t, th.(at := Calling))
  }

  ghost predicate PoolTake(cfg: Config, s: Sys, t: nat, s': Sys) {
    && t in s.threads && s.threads[t].at.PoolAlloc?
    && var th := s.threads[t]; var p := InPool(th.i);
    && At(s.sl, p) != [] && th.i < |cfg.addr|
    && var x := At(s.sl, p)[0];
    s' == Put(s.(sl := PopSlots(s.sl, p), words := s.words[x := cfg.addr[th.i]]), t,
              th.(at := Leave(PoolLock(cfg, th.i), Returning), result := x + SLOT_HEADER))
  }

  /** What a critical section of the general path may do to memory: spell out the new heap, and
      write nothing outside the arenas and nothing in live payloads but `except`. */
  ghost predicate GeneralWrites(s: Sys, h': Heap, words': Words, head': int, mapped': set<int>, except: set<int>) {
    && words'.Keys == mapped' && GP.Spelled(words', head', h')
    && GP.OnlyHeapWritten(s.heap, s.words, words', except)
  }

  ghost predicate GeneralTake(cfg: Config, s: Sys, t: nat, words': Words, s': Sys) {
    && t in s.threads && s.threads[t].at.GeneralAlloc?
    && (forall k | 0 <= k < |s.heap.list| :: s.heap.list[k] in s.heap.blocks)
    && var th := s.threads[t];
    && 0 <= th.n <= MAX_REQUEST
    && var (h', os', p) := Allocate(s.heap, s.os, cfg.arenaSize, AlignUp(th.n));
    && GeneralWrites(s, h', words', s'.head, os'.mapped, {})
    && s' == Put(s.(heap := h', os := os', words := words', head := s'.head), t,
                 th.(at := Leave(GeneralLock(cfg), Returning), result := p))
  }

  ghost function NonNull(p: int): set<int> { if p == 0 then {} else {p} }

  /** The end of my_malloc: back to the client, or on with the move of my_realloc. */
  ghost predicate Return(s: Sys, t: nat, s': Sys) {
    && t in s.threads && s.threads[t].at.Returning?
    && var th := s.threads[t];
    if th.source != 0 && th.result != 0 then
      s' == Put(s, t, th.(at := Copying))
    else
      s' == Put(s.(held := s.held + NonNull(th.result) + NonNull(th.source)), t, IDLE_THREAD)
  }

  // ---- my_free -----------------------------------------------------------------------------

  ghost predicate StartFree(s: Sys, t: nat, p: int, s': Sys) {
    && t in s.threads && s.threads[t].at.Idle? && p in s.held
    && s' == Put(s.(held := s.held - {p}), t, IDLE_THREAD.(at := FreeTag, ptr := p))
  }

  /** The index of the pool whose address a word is, if it is one. */
  ghost function PoolOf(cfg: Config, word: int): Option<nat> {
    if exists i: nat :: i < |cfg.addr| && cfg.addr[i] == word then
      var i: nat :| i < |cfg.addr| && cfg.addr[i] == word;
      Some(i)
    else None
  }

  /** The unlocked read of the word before the payload decides the path. */
  ghost predicate ReadTag(cfg: Config, s: Sys, t: nat, s': Sys) {
    && t in s.threads && s.threads[t].at.FreeTag?
    && var th := s.threads[t];
    && th.ptr - HEADER in s.words
    && match PoolOf(cfg, s.words[th.ptr - HEADER])
       case Some(i) => s' == Put(s, t, th.(at := if cfg.stage == 3 then CacheFree else PoolFreeWait, i := i))
       case None => s' == Put(s, t, th.(at := GeneralFreeWait))
  }

  ghost predicate CachePush(s: Sys, t: nat, s': Sys) {
    && t in s.threads && s.threads[t].at.CacheFree?
    && var th := s.threads[t]; var p, x := InCache(t, th.i), th.ptr - SLOT_HEADER;
    s' == Put(s.(sl := PushSlots(s.sl, p, x), words := s.words[x := LinkTo(At(s.sl, p), 0)]), t,
              th.(at := if |At(s.sl, p)| + 1 > TC.CAP then Detaching else Freed, ptr := 0))
  }

  /** Still without the lock, the first BATCH slots leave the cache. */
  ghost predicate Detach(s: Sys, t: nat, s': Sys) {
    && t in s.threads && s.threads[t].at.Detaching?
    && var th := s.threads[t]; var p, q := InCache(t, th.i), InFlight(t, th.i);
    && TC.BATCH <= |At(s.sl, p)|
    && s' == Put(s.(sl := Transfer(s.sl, p, At(s.sl, p)[TC.BATCH..], q, At(s.sl, p)[..TC.BATCH]),
                    words := s.words[At(s.sl, p)[TC.BATCH - 1] := 0]), t, th.(at := FlushWait))
  }

  ghost predicate SpliceBack(cfg: Config, s: Sys, t: nat, s': Sys) {
    && t in s.threads && s.threads[t].at.Flushing?
    && var th := s.threads[t]; var p, q := InPool(th.i), InFlight(t, th.i);
    && At(s.sl, q) != []
    && s' == Put(s.(sl := Transfer(s.sl, p, At(s.sl, q) + At(s.sl, p), q, []),
                    words := s.words[Last(At(s.sl, q)) := LinkTo(At(s.sl, p), 0)]), t,
                 th.(at := Leave(PoolLock(cfg, th.i), Freed)))
  }

  ghost predicate PoolPush(cfg: Config, s: Sys, t: nat, s': Sys) {
    && t in s.threads && s.threads[t].at.PoolFree?
    && var th := s.threads[t]; var p, x := InPool(th.i), th.ptr - SLOT_HEADER;
    s' == Put(s.(sl := PushSlots(s.sl, p, x), words := s.words[x := LinkTo(At(s.sl, p), 0)]), t,
              th.(at := Leave(PoolLock(cfg, th.i), Freed), ptr := 0))
  }

  ghost predicate GeneralRelease(cfg: Config, s: Sys, t: nat, words': Words, s': Sys) {
    && t in s.threads && s.threads[t].at.GeneralFree?
    && var th := s.threads[t]; var a := th.ptr - HEADER;
    && a in s.heap.blocks && s.heap.blocks[a].arena < |s.heap.arenas|
    && var h' := Release(s.heap, a);
    && GeneralWrites(s, h', words', s'.head, s.os.mapped, {a})
    && s' == Put(s.(heap := h', words := words', head := s'.head), t, th.(at := Leave(GeneralLock(cfg), Freed), ptr := 0))
  }

  ghost predicate FreeReturn(s: Sys, t: nat, s': Sys) {
    && t in s.threads && s.threads[t].at.Freed?
    && s' == Put(s.(held := s.held + NonNull(s.threads[t].result)), t, IDLE_THREAD)
  }

  // ---- my_realloc --------------------------------------------------------------------------

  ghost predicate StartRealloc(s: Sys, t: nat, p: int, n: int, s': Sys) {
    && t in s.threads && s.threads[t].at.Idle? && p in s.held && 0 <= n <= MAX_REQUEST
    && s' == Put(s.(held := s.held - {p}), t,
                 IDLE_THREAD.(at := ReallocTag, n := n, source := p, data := Snapshot(s.words, p, Cap(s, p))))
  }

  /** A pooled pointer is kept when its slot is large enough, and moved otherwise. */
  ghost predicate ReallocRoute(cfg: Config, s: Sys, t: nat, s': Sys) {
    && t in s.threads && s.threads[t].at.ReallocTag?
    && var th := s.threads[t];
    && th.source - HEADER in s.words
    && match PoolOf(cfg, s.words[th.source - HEADER])
       case Some(i) =>
         if th.n <= Payload(i) then s' == Put(s, t, th.(at := Returning, i := i, result := th.source, source := 0))
         else s' == Put(s, t, th.(at := Calling, i := i, size := Payload(i)))
       case None => s' == Put(s, t, th.(at := ResizeWait))
  }

  /** The locked half of a general realloc: keep the block, grow it in place, or remember its
      size and go on to move it after unlocking. */
  ghost predicate Resize(cfg: Config, s: Sys, t: nat, words': Words, s': Sys) {
    && t in s.threads && s.threads[t].at.Resizing?
    && var th := s.threads[t]; var a := th.source - HEADER;
    && 0 <= th.n <= MAX_REQUEST
    && a in s.heap.blocks && s.heap.blocks[a].arena < |s.heap.arenas|
    && var n := AlignUp(th.n);
    if n <= s.heap.blocks[a].size then
      s' == Put(s, t, th.(at := Leave(GeneralLock(cfg), Returning), result := th.source, source := 0))
    else if CanGrow(s.heap, a, n) then
      && GeneralWrites(s, Grow(s.heap, a, n), words', s'.head, s.os.mapped, {})
      && s' == Put(s.(heap := Grow(s.heap, a, n), words := words', head := s'.head), t,
                   th.(at := Leave(GeneralLock(cfg), Returning), result := th.source, source := 0))
    else
      s' == Put(s, t, th.(at := Leave(GeneralLock(cfg), Calling), size := s.heap.blocks[a].size))
  }

  /** memcpy of n bytes, n a multiple of the word size. */
  ghost function CopyWords(words: Words, from: int, target: int, n: int): Words {
    map w | w in words :: CopiedWord(words, from, target, n, w)
  }

  ghost function CopiedWord(words: Words, from: int, target: int, n: int, w: int): int
    requires w in words
  {
    if 0 <= w - target < n && from + (w - target) in words then words[from + (w - target)] else words[w]
  }

  /** The unlocked copy, after which the old pointer is freed like any other. */
  ghost predicate Copy(s: Sys, t: nat, s': Sys) {
    && t in s.threads && s.threads[t].at.Copying?
    && var th := s.threads[t];
    s' == Put(s.(words := CopyWords(s.words, th.source, th.result, if th.size < th.n then th.size else th.n)), t,
              th.(at := FreeTag, ptr := th.source, source := 0))
  }

  // ---- Clients and runs ----------------------------------------------------------------------

  /** A client writes a word of a payload it holds. */
  ghost predicate ClientWrite(s: Sys, p: int, k: int, value: int, s': Sys) {
    && p in s.held && 0 <= k < Cap(s, p) && k % 8 == 0 && p + k in s.words
    && s' == s.(words := s.words[p + k := value])
  }

  /** A step of thread t. */
  ghost predicate ThreadStep(cfg: Config, s: Sys, t: nat, s': Sys) {
    || Acquire(cfg, s, t, s') || Unlock(s, t, s')
    || (exists n :: StartMalloc(s, t, n, s'))
    || Dispatch(cfg, s, t, s') || RefillTake(s, t, s') || ExpandGranted(s, t, s')
    || ExpandRefused(cfg, s, t, s') || RefillFull(cfg, s, t, s') || Install(s, t, s')
    || PoolTake(cfg, s, t, s') || GeneralTake(cfg, s, t, s'.words, s') || Return(s, t, s')
    || (exists p :: StartFree(s, t, p, s'))
    || ReadTag(cfg, s, t, s') || CachePush(s, t, s') || Detach(s, t, s')
    || SpliceBack(cfg, s, t, s') || PoolPush(cfg, s, t, s')
    || GeneralRelease(cfg, s, t, s'.words, s') || FreeReturn(s, t, s')
    || (exists p, n :: StartRealloc(s, t, p, n, s'))
    || ReallocRoute(cfg, s, t, s') || Resize(cfg, s, t, s'.words, s') || Copy(s, t, s')
  }

  ghost predicate Next(cfg: Config, s: Sys, s': Sys) {
    || (exists t :: ThreadStep(cfg, s, t, s'))
    || (exists p, k, value :: ClientWrite(s, p, k, value, s'))
  }

  ghost predicate ConfigOk(cfg: Config, os: Os) {
    && 1 <= cfg.stage <= 3 && |cfg.addr| == CLASSES
    && (forall i, j | 0 <= i < j < CLASSES :: cfg.addr[i] != cfg.addr[j])
    // No mapping, hence no block, is as large as the address of a pool.
    && (forall i | 0 <= i < CLASSES :: os.largest < cfg.addr[i])
  }

  ghost predicate Init(cfg: Config, s: Sys) {
    && ConfigOk(cfg, s.os)
    && (forall t | t in s.threads :: s.threads[t] == IDLE_THREAD)
    && s.owner == map[] && s.words == map[] && s.os.mapped == {}
    && s.sl == Slots(map[], map[], map[]) && s.heap == EMPTY_HEAP && s.head == 0 && s.held == {}
  }

  ghost predicate Follows(cfg: Config, run: seq<Sys>, k: int) {
    0 <= k < |run| - 1 && Next(cfg, run[k], run[k + 1])
  }

  ghost predicate IsRun(cfg: Config, run: seq<Sys>) {
    && run != [] && Init(cfg, run[0])
    && forall k {:trigger Follows(cfg, run, k)} | 0 <= k < |run| - 1 :: Follows(cfg, run, k)
  }
}
