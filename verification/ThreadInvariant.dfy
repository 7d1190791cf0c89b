/** What holds in every reachable state of the threads. */
module ThreadInvariant {
  import opened Machine
  import opened BlockTags
  import opened HeapModel
  import opened SlotSystem
  import opened Threads
  import GP = GeneralPath
  import TC = ThreadCache
  import HL = HeapLaws

  // ---- The parts of the invariant ------------------------------------------------------------

  /** A mutex is owned by exactly the thread that stands inside its critical section. */
  ghost predicate LocksOk(cfg: Config, s: Sys) {
    && (forall m | m in s.owner :: s.owner[m] in s.threads && Holds(cfg, s.threads[s.owner[m]]) == Some(m))
    && (forall t | t in s.threads && Holds(cfg, s.threads[t]).Some? ::
          Holds(cfg, s.threads[t]).value in s.owner && s.owner[Holds(cfg, s.threads[t]).value] == t)
  }

  ghost predicate HeapOk(s: Sys) {
    && Valid(s.heap) && HL.MappedBy(s.heap, s.os) && GP.Spelled(s.words, s.head, s.heap)
    && forall k | 0 <= k < |s.heap.arenas| :: s.heap.arenas[k].size <= s.os.largest
  }

  /** No slot lies in an arena of the general path. */
  ghost predicate Separate(s: Sys) {
    forall i, x, k {:trigger SlotAside(s.heap, i, x, k)} | IsSlot(s.sl, i, x) && 0 <= k < |s.heap.arenas| ::
      SlotAside(s.heap, i, x, k)
  }

  ghost predicate SlotAside(h: Heap, i: nat, x: int, k: int)
    requires 0 <= k < |h.arenas|
  {
    WordsOf(Region(x, Total(i))) !! WordsOf(Region(h.arenas[k].base, h.arenas[k].size))
  }

  ghost predicate MemoryOk(cfg: Config, s: Sys) {
    && ConfigOk(cfg, s.os) && s.words.Keys == s.os.mapped
    && PlacesOk(cfg.addr, s.sl, s.words, s.os.mapped)
    && HeapOk(s) && Separate(s)
  }

  /** The pointers in a thread's registers. */
  ghost function Regs(th: Thread): set<int> {
    NonNull(th.ptr) + NonNull(th.result) + NonNull(th.source)
  }

  ghost predicate Owns(s: Sys, t: nat, p: int) {
    t in s.threads && p in Regs(s.threads[t])
  }

  ghost predicate RegsDistinct(th: Thread) {
    && (th.ptr != 0 ==> th.ptr != th.result && th.ptr != th.source)
    && (th.result != 0 ==> th.result != th.source)
  }

  /** Every live pointer is held by the clients or sits in exactly one register of exactly one
      thread, and nothing else does. */
  ghost predicate OwnershipOk(s: Sys) {
    && (forall t | t in s.threads :: RegsDistinct(s.threads[t]))
    && (forall p | p in s.held :: PtrLive(s, p))
    && (forall t, p | Owns(s, t, p) :: PtrLive(s, p) && p !in s.held)
    && (forall t, u, p | Owns(s, t, p) && Owns(s, u, p) :: t == u)
    && (forall p | PtrLive(s, p) :: p in s.held || exists t :: Owns(s, t, p))
  }

  // ---- What a label says about a thread --------------------------------------------------------

  predicate IsMalloc(at: Label) {
    match at
    case Calling => true
    case RefillWait => true
    case Refilling => true
    case Installing => true
    case PoolWait => true
    case PoolAlloc => true
    case GeneralWait => true
    case GeneralAlloc => true
    case Returning => true
    case Leave(_, next) => next.Calling? || next.Installing? || next.Returning?
    case _ => false
  }

  predicate IsFreeing(at: Label) {
    at.FreeTag? || at.CacheFree? || at.PoolFreeWait? || at.PoolFree? || at.GeneralFreeWait? || at.GeneralFree?
  }

  predicate IsFreed(at: Label) {
    at.Detaching? || at.FlushWait? || at.Flushing? || at.Freed? || (at.Leave? && at.next.Freed?)
  }

  predicate IsRealloc(at: Label) {
    at.ReallocTag? || at.ResizeWait? || at.Resizing?
  }

  /** The last stretch of a malloc, where the result may be set. */
  predicate IsReturning(at: Label) {
    at.Returning? || (at.Leave? && at.next.Returning?)
  }

  predicate HasFlight(at: Label) {
    at.Refilling? || at.Installing? || at.FlushWait? || at.Flushing? || (at.Leave? && at.next.Installing?)
  }

  predicate IsRefill(at: Label) {
    at.RefillWait? || at.Refilling? || at.Installing? || (at.Leave? && at.next.Installing?)
  }

  predicate KnowsClass(at: Label) {
    HasFlight(at) || at.RefillWait? || at.PoolWait? || at.PoolAlloc? || at.CacheFree? || at.PoolFreeWait? || at.PoolFree? || at.Detaching?
  }

  /** Labels a thread may stand at. */
  predicate Sensible(at: Label) {
    at.Idle? || IsMalloc(at) || IsFreeing(at) || IsFreed(at) || IsRealloc(at) || at.Copying?
  }

  ghost predicate RegsOk(s: Sys, th: Thread) {
    && Sensible(th.at) && 0 <= th.n <= MAX_REQUEST
    && (KnowsClass(th.at) ==> th.i < CLASSES)
    && (th.at.GeneralWait? || th.at.GeneralAlloc? ==> 4096 < th.n)
    && (IsRefill(th.at) || th.at.PoolWait? || th.at.PoolAlloc? ==> th.i == ClassFor(th.n))
    && (th.ptr != 0 <==> IsFreeing(th.at))
    && (th.result != 0 ==> IsReturning(th.at) || th.at.Copying? || IsFreeing(th.at) || IsFreed(th.at))
    && (th.source != 0 ==> IsMalloc(th.at) || IsRealloc(th.at) || th.at.Copying?)
    && (IsRealloc(th.at) ==> th.source != 0)
    && (th.at.Copying? ==> th.source != 0 && th.result != 0)
    && (IsMalloc(th.at) && th.source == 0 && th.result == 0 ==> th.data == map[])
    // the routes taken
    && (th.at.CacheFree? || th.at.PoolFreeWait? || th.at.PoolFree? ==>
          th.ptr - HEADER in s.sl.live && s.sl.live[th.ptr - HEADER] == th.i)
    && (th.at.GeneralFreeWait? || th.at.GeneralFree? ==> IsLive(s.heap, th.ptr - HEADER))
    && (th.at.ResizeWait? || th.at.Resizing? ==> IsLive(s.heap, th.source - HEADER))
    // a move: the size read still is the source's, and the request is larger
    && (th.source != 0 && (IsMalloc(th.at) || th.at.Copying?) ==> th.size == Cap(s, th.source) <= th.n)
    // a result: large enough, and once the source is gone it has the source's data
    && (th.result != 0 ==> th.n <= Cap(s, th.result))
    && (th.source != 0 ==> DataAt(s.words, th.source, th.data) && th.data.Keys == Offsets(Cap(s, th.source)))
    && (th.result != 0 && th.source == 0 ==>
          DataAt(s.words, th.result, th.data) && th.data.Keys <= Offsets(Cap(s, th.result)))
  }

  /** The word offsets of a payload. */
  ghost function Offsets(size: int): set<int> {
    set k | 0 <= k < size && k % 8 == 0
  }

  /** A thread's cache and batch for class j: at rest the cache holds at most CAP slots, a
      refill starts from an empty one, only a refill or a flush has a batch in hand, and a flush
      takes BATCH slots of CAP + 1. */
  ghost predicate CacheOk(s: Sys, t: nat, th: Thread, j: nat) {
    var cache, flight := At(s.sl, InCache(t, j)), At(s.sl, InFlight(t, j));
    && |cache| <= TC.CAP + (if th.at.Detaching? && th.i == j then 1 else 0)
    && (th.at.Detaching? && th.i == j ==> |cache| == TC.CAP + 1)
    && (IsRefill(th.at) && th.i == j ==> cache == [])
    && (flight != [] ==> HasFlight(th.at) && th.i == j)
    && |flight| <= TC.BATCH
    && ((th.at.FlushWait? || th.at.Flushing?) && th.i == j ==>
          |flight| == TC.BATCH && |cache| == TC.CAP + 1 - TC.BATCH)
  }

  ghost predicate ThreadOk(s: Sys, t: nat)
    requires t in s.threads
  {
    RegsOk(s, s.threads[t]) && CachesOk(s, t, s.threads[t])
  }

  ghost predicate CachesOk(s: Sys, t: nat, th: Thread) {
    forall j {:trigger CacheOk(s, t, th, j)} :: CacheOk(s, t, th, j)
  }

  ghost predicate Inv(cfg: Config, s: Sys) {
    && MemoryOk(cfg, s) && LocksOk(cfg, s) && OwnershipOk(s)
    && (forall t {:trigger ThreadOk(s, t)} | t in s.threads :: ThreadOk(s, t))
    && (forall t: nat, j: nat {:trigger OwnPlacesEmpty(s, t, j)} | t !in s.threads :: OwnPlacesEmpty(s, t, j))
  }

  ghost predicate OwnPlacesEmpty(s: Sys, t: nat, j: nat) {
    At(s.sl, InCache(t, j)) == [] && At(s.sl, InFlight(t, j)) == []
  }

  // ---- What other threads' steps leave alone ---------------------------------------------------

  /** Pointer p keeps its slot or block, its size, its tag and every word of its payload. */
  ghost predicate Kept(s: Sys, s': Sys, p: int) {
    && (p - HEADER in s.sl.live ==> p - HEADER in s'.sl.live && s'.sl.live[p - HEADER] == s.sl.live[p - HEADER])
    && (IsLive(s.heap, p - HEADER) ==> IsLive(s'.heap, p - HEADER) && s'.heap.blocks[p - HEADER] == s.heap.blocks[p - HEADER])
    && Cap(s', p) == Cap(s, p)
    && forall w | p <= w < p + Cap(s, p) && w in s.words :: w in s'.words && s'.words[w] == s.words[w]
  }

  ghost predicate SamePlaces(s: Sys, s': Sys, u: nat, j: nat) {
    && At(s'.sl, InCache(u, j)) == At(s.sl, InCache(u, j))
    && At(s'.sl, InFlight(u, j)) == At(s.sl, InFlight(u, j))
  }

  /** The pointers whose blocks a thread's next step may rewrite while it keeps them. */
  ghost function Touched(th: Thread): set<int> {
    if th.at.Copying? then NonNull(th.result) else if th.at.Resizing? then NonNull(th.source) else {}
  }

  /** Pointer p is not t's, or t's step neither frees nor rewrites it. */
  ghost predicate Spared(s: Sys, s': Sys, t: nat, p: int) {
    && PtrLive(s, p) && t in s.threads
    && (!Owns(s, t, p) || (PtrLive(s', p) && p !in Touched(s.threads[t])))
  }

  /** A step of t leaves alone every live pointer but those it frees or rewrites, which t owns,
      and every other thread with its cache and batch. */
  ghost predicate Quiet(s: Sys, s': Sys, t: nat) {
    && s'.threads.Keys == s.threads.Keys
    && (forall u | u in s.threads && u != t :: s'.threads[u] == s.threads[u])
    && (forall u: nat, j: nat {:trigger SamePlaces(s, s', u, j)} | u != t :: SamePlaces(s, s', u, j))
    && (forall p {:trigger Kept(s, s', p)} | Spared(s, s', t, p) :: Kept(s, s', p))
  }

  /** What a thread's registers say survives when its pointers are kept. */
  lemma RegsKept(s: Sys, s': Sys, th: Thread)
    requires RegsOk(s, th)
    requires forall p | p in Regs(th) :: Kept(s, s', p)
    ensures RegsOk(s', th)
  {
    assert th.ptr != 0 ==> th.ptr in Regs(th);
    assert th.result != 0 ==> th.result in Regs(th);
    assert th.source != 0 ==> th.source in Regs(th);
    DataKept(s, s', th);
  }

  lemma OthersKeep(s: Sys, s': Sys, t: nat, u: nat)
    requires Quiet(s, s', t) && OwnershipOk(s)
    requires u in s.threads && t in s.threads && u != t && ThreadOk(s, u)
    ensures ThreadOk(s', u)
  {
    var th := s.threads[u];
    forall p | p in Regs(th) ensures Kept(s, s', p) && PtrLive(s', p) {
      assert Owns(s, u, p);
      assert !Owns(s, t, p);
      assert Spared(s, s', t, p);
    }
    RegsKept(s, s', th);
    forall j ensures CacheOk(s', u, th, j) {
      assert CacheOk(s, u, th, j) && SamePlaces(s, s', u, j);
    }
  }

  lemma DataKept(s: Sys, s': Sys, th: Thread)
    requires RegsOk(s, th)
    requires forall p | p in Regs(th) :: Kept(s, s', p)
    ensures th.source != 0 ==> DataAt(s'.words, th.source, th.data)
    ensures th.result != 0 && th.source == 0 ==> DataAt(s'.words, th.result, th.data)
  {
    if th.source != 0 {
      assert th.source in Regs(th) && Kept(s, s', th.source);
      SourceKept(s, s', th.source, th.data);
    } else if th.result != 0 {
      assert th.result in Regs(th) && Kept(s, s', th.result);
      SourceKept(s, s', th.result, th.data);
    }
  }

  lemma SourceKept(s: Sys, s': Sys, p: int, data: map<int, int>)
    requires Kept(s, s', p) && DataAt(s.words, p, data) && data.Keys <= Offsets(Cap(s, p))
    ensures DataAt(s'.words, p, data)
  {
    forall k | k in data ensures p + k in s'.words && s'.words[p + k] == data[k] {
      assert k in Offsets(Cap(s, p)) && p + k in s.words;
    }
  }
}
