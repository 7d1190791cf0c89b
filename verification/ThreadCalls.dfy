/** The pooled calls of the thread model, taken whole: when a thread runs alone, what it is served
    and what it leaves in its cache and in the pool is what ThreadCache and MemoryPool compute. */
module ThreadCalls {
  import opened Machine
  import opened BlockTags
  import opened MemoryPool
  import opened SlotSystem
  import opened Threads
  import opened ThreadInvariant
  import opened ThreadProof
  import opened ThreadHeapProof
  import opened ThreadLaws
  import opened ThreadSafety
  import CL = CacheLaws
  import TC = ThreadCache

  // ---- What a call should do -----------------------------------------------------------------------

  /** t's cache of class i, the pool's chain and the system. */
  ghost function CachedOf(s: Sys, t: nat, i: nat): TC.Cached {
    TC.Cached(At(s.sl, InCache(t, i)), At(s.sl, InPool(i)), s.os)
  }

  ghost function SlotPtr(slot: int): int { if slot == 0 then 0 else slot + 16 }

  /** A pooled my_malloc: through the cache in stage 3, straight from the pool otherwise. */
  ghost function Served(cfg: Config, c: TC.Cached, i: nat): (int, TC.Cached)
    requires 0 < Total(i)
  {
    if cfg.stage == 3 then
      var (slot, c') := TC.Malloc(c, Total(i));
      (SlotPtr(slot), c')
    else
      var (slot, chain', os') := Taken(c.chain, c.os, Total(i));
      (SlotPtr(slot), TC.Cached(c.cache, chain', os'))
  }

  /** A pooled my_free of the slot x. */
  ghost function TakenBack(cfg: Config, c: TC.Cached, x: int): TC.Cached {
    if cfg.stage == 3 then TC.Free(c, x) else TC.Cached(c.cache, [x] + c.chain, c.os)
  }

  // ---- my_malloc, step by step -----------------------------------------------------------------------

  /** t is inside a malloc of class i, at a label of its stage. */
  ghost predicate InMalloc(cfg: Config, s: Sys, t: nat, i: nat) {
    && t in s.threads && i < CLASSES && ClassFor(s.threads[t].n) == i
    && var at := s.threads[t].at;
    || at.Calling? || at.Returning? || (at.Leave? && at.next.Returning?)
    || (s.threads[t].i == i
        && if cfg.stage == 3 then at.RefillWait? || at.Refilling? || at.Installing? || (at.Leave? && at.next.Installing?)
           else at.PoolWait? || at.PoolAlloc?)
  }

  /** What is served once the batch is complete. */
  ghost function FromBatch(batch: seq<int>, chain: seq<int>, os: Os): (int, TC.Cached) {
    if batch == [] then (0, TC.Cached([], chain, os)) else (SlotPtr(batch[0]), TC.Cached(batch[1..], chain, os))
  }

  /** What t's malloc will have done when it returns, if only t runs. */
  ghost function Due(cfg: Config, s: Sys, t: nat, i: nat): (int, TC.Cached)
    requires t in s.threads && 0 < Total(i)
  {
    var at, c, flight := s.threads[t].at, CachedOf(s, t, i), At(s.sl, InFlight(t, i));
    if at.Returning? || (at.Leave? && at.next.Returning?) then (s.threads[t].result, c)
    else if at.Installing? || (at.Leave? && at.next.Installing?) then FromBatch(flight, c.chain, c.os)
    else if at.Refilling? then
      var (rest, chain', os') := TakenBatch(c.chain, c.os, Total(i), if |flight| < 32 then 32 - |flight| else 0);
      FromBatch(flight + rest, chain', os')
    else Served(cfg, c, i)
  }

  /** The chains of t for class i hold real slots, and are as its label says. */
  ghost predicate ChainsReady(s: Sys, t: nat, i: nat) {
    && t in s.threads && CacheOk(s, t, s.threads[t], i)
    && (forall x | x in At(s.sl, InPool(i)) :: 0 < x)
    && (forall x | x in At(s.sl, InCache(t, i)) :: 0 < x)
    && (forall x | x in At(s.sl, InFlight(t, i)) :: 0 < x)
  }

  lemma AreReady(cfg: Config, s: Sys, t: nat, i: nat)
    requires Inv(cfg, s) && t in s.threads
    ensures ChainsReady(s, t, i)
  {
    assert ThreadOk(s, t) && CacheOk(s, t, s.threads[t], i);
    forall p, x | x in At(s.sl, p) ensures 0 < x {
      assert PlaceOk(s.sl, s.words, p);
      SlotWord(s.sl, s.words, s.os.mapped, p.i, x);
    }
  }

  /** The step keeps the outcome and stays in the call. */
  ghost predicate OnCourse(cfg: Config, s: Sys, t: nat, i: nat, s': Sys) {
    && 0 < Total(i) && t in s.threads && InMalloc(cfg, s', t, i) && Due(cfg, s', t, i) == Due(cfg, s, t, i)
    && s'.held == s.held && s'.threads[t].source == s.threads[t].source
  }

  lemma DispatchOnCourse(cfg: Config, s: Sys, t: nat, i: nat, s': Sys)
    requires InMalloc(cfg, s, t, i) && ChainsReady(s, t, i) && Dispatch(cfg, s, t, s') && 0 < Total(i)
    ensures OnCourse(cfg, s, t, i, s')
  {
    assert At(s.sl, InCache(t, i)) != [] ==> At(s.sl, InCache(t, i))[0] in At(s.sl, InCache(t, i));
  }

  lemma AcquireOnCourse(cfg: Config, s: Sys, t: nat, i: nat, s': Sys)
    requires InMalloc(cfg, s, t, i) && ChainsReady(s, t, i) && Acquire(cfg, s, t, s') && 0 < Total(i)
    ensures OnCourse(cfg, s, t, i, s')
  {
    var (rest, chain', os') := TakenBatch(At(s.sl, InPool(i)), s.os, Total(i), 32);
    assert [] + rest == rest;
  }

  lemma UnlockOnCourse(cfg: Config, s: Sys, t: nat, i: nat, s': Sys)
    requires InMalloc(cfg, s, t, i) && Unlock(s, t, s') && 0 < Total(i)
    ensures OnCourse(cfg, s, t, i, s')
  {
  }

  lemma InstallOnCourse(cfg: Config, s: Sys, t: nat, i: nat, s': Sys)
    requires InMalloc(cfg, s, t, i) && ChainsReady(s, t, i) && Install(s, t, s') && 0 < Total(i)
    requires s.threads[t].result == 0
    ensures OnCourse(cfg, s, t, i, s')
  {
    var flight := At(s.sl, InFlight(t, i));
    assert flight != [] ==> flight[0] in flight;
  }

  lemma PoolTakeOnCourse(cfg: Config, s: Sys, t: nat, i: nat, s': Sys)
    requires InMalloc(cfg, s, t, i) && ChainsReady(s, t, i) && PoolTake(cfg, s, t, s') && 0 < Total(i)
    ensures OnCourse(cfg, s, t, i, s')
  {
    assert At(s.sl, InPool(i))[0] in At(s.sl, InPool(i));
  }

  // ---- The refill loop -------------------------------------------------------------------------------

  lemma RefillTakeOnCourse(cfg: Config, s: Sys, t: nat, i: nat, s': Sys)
    requires InMalloc(cfg, s, t, i) && ChainsReady(s, t, i) && RefillTake(s, t, s') && 0 < Total(i)
    ensures OnCourse(cfg, s, t, i, s')
  {
    var flight, chain := At(s.sl, InFlight(t, i)), At(s.sl, InPool(i));
    var (rest, chain', os') := TakenBatch(chain[1..], s.os, Total(i), 32 - |flight| - 1);
    assert chain[0] in chain;
    assert flight + ([chain[0]] + rest) == flight + [chain[0]] + rest;
  }

  lemma RefillFullOnCourse(cfg: Config, s: Sys, t: nat, i: nat, s': Sys)
    requires InMalloc(cfg, s, t, i) && RefillFull(cfg, s, t, s') && 0 < Total(i)
    ensures OnCourse(cfg, s, t, i, s')
  {
    var flight := At(s.sl, InFlight(t, i));
    assert flight + [] == flight;
  }

  lemma GrantTaken(chain: seq<int>, os: Os, total: int, n: nat)
    requires 0 < total && total % ALIGNMENT == 0 && chain == [] && os.Ask(total * 256).0.Some?
    ensures var (answer, os') := os.Ask(total * 256);
            var carved := Carved(answer.value.base, answer.value.size, total);
            && Taken(chain, os, total) == Taken(carved, os', total)
            && (0 < n ==> TakenBatch(chain, os, total, n) == TakenBatch(carved, os', total, n))
  {
    var (answer, os') := os.Ask(total * 256);
    var carved := Carved(answer.value.base, answer.value.size, total);
    GrantedSlots(os, total);
    assert carved + [] == carved;
  }

  lemma ExpandOnCourse(cfg: Config, s: Sys, t: nat, i: nat, s': Sys)
    requires InMalloc(cfg, s, t, i) && ChainsReady(s, t, i) && ExpandGranted(s, t, s')
    requires 0 < Total(i) && Total(i) % ALIGNMENT == 0
    ensures OnCourse(cfg, s, t, i, s')
  {
    var flight := At(s.sl, InFlight(t, i));
    GrantTaken(At(s.sl, InPool(i)), s.os, Total(i), if |flight| < 32 then 32 - |flight| else 0);
  }

  lemma RefusedOnCourse(cfg: Config, s: Sys, t: nat, i: nat, s': Sys)
    requires InMalloc(cfg, s, t, i) && ChainsReady(s, t, i) && ExpandRefused(cfg, s, t, s') && 0 < Total(i)
    requires s.threads[t].at.PoolAlloc? ==> s.threads[t].result == 0
    ensures OnCourse(cfg, s, t, i, s')
  {
    var flight := At(s.sl, InFlight(t, i));
    assert flight + [] == flight;
  }

  // ---- A whole my_malloc -----------------------------------------------------------------------------

  /** Only t, and clients writing their payloads, take steps between states j and k. */
  ghost predicate OnlyRuns(cfg: Config, run: seq<Sys>, t: nat, j: nat, k: nat) {
    forall m {:trigger Moves(cfg, run, t, m)} | j <= m < k :: Moves(cfg, run, t, m)
  }

  ghost predicate Moves(cfg: Config, run: seq<Sys>, t: nat, m: int) {
    0 <= m && m + 1 < |run| && MovesTo(cfg, run[m], t, run[m + 1])
  }

  ghost predicate MovesTo(cfg: Config, s: Sys, t: nat, s': Sys) {
    ThreadStep(cfg, s, t, s') || IsClientWrite(s, s')
  }

  ghost predicate IsClientWrite(s: Sys, s': Sys) {
    exists p, k, value :: ClientWrite(s, p, k, value, s')
  }

  /** Refill and pool steps keep on course. */
  lemma PoolStepsOnCourse(cfg: Config, s: Sys, t: nat, i: nat, s': Sys)
    requires InMalloc(cfg, s, t, i) && ChainsReady(s, t, i) && 0 < Total(i) && Total(i) % ALIGNMENT == 0
    requires s.threads[t].at.PoolAlloc? || s.threads[t].at.Installing? ==> s.threads[t].result == 0
    requires RefillTake(s, t, s') || ExpandGranted(s, t, s') || ExpandRefused(cfg, s, t, s')
             || RefillFull(cfg, s, t, s') || Install(s, t, s') || PoolTake(cfg, s, t, s')
    ensures OnCourse(cfg, s, t, i, s')
  {
    if RefillTake(s, t, s') {
      RefillTakeOnCourse(cfg, s, t, i, s');
    } else if ExpandGranted(s, t, s') {
      ExpandOnCourse(cfg, s, t, i, s');
    } else if ExpandRefused(cfg, s, t, s') {
      RefusedOnCourse(cfg, s, t, i, s');
    } else if RefillFull(cfg, s, t, s') {
      RefillFullOnCourse(cfg, s, t, i, s');
    } else if Install(s, t, s') {
      InstallOnCourse(cfg, s, t, i, s');
    } else {
      PoolTakeOnCourse(cfg, s, t, i, s');
    }
  }

  /** No other step is possible inside a malloc of class i. */
  lemma OnlyMallocSteps(cfg: Config, s: Sys, t: nat, i: nat, s': Sys)
    requires InMalloc(cfg, s, t, i) && !s.threads[t].at.Returning? && ThreadStep(cfg, s, t, s')
    ensures Dispatch(cfg, s, t, s') || Acquire(cfg, s, t, s') || Unlock(s, t, s')
            || RefillTake(s, t, s') || ExpandGranted(s, t, s') || ExpandRefused(cfg, s, t, s')
            || RefillFull(cfg, s, t, s') || Install(s, t, s') || PoolTake(cfg, s, t, s')
  {
  }

  /** Every step of t inside a malloc, up to its return, keeps the outcome. */
  lemma MallocOnCourse(cfg: Config, s: Sys, t: nat, i: nat, s': Sys)
    requires Inv(cfg, s) && InMalloc(cfg, s, t, i) && ThreadStep(cfg, s, t, s') && !s.threads[t].at.Returning?
    ensures OnCourse(cfg, s, t, i, s')
  {
    TotalAligned(i);
    AreReady(cfg, s, t, i);
    assert ThreadOk(s, t);
    OnlyMallocSteps(cfg, s, t, i, s');
    if Dispatch(cfg, s, t, s') {
      DispatchOnCourse(cfg, s, t, i, s');
    } else if Acquire(cfg, s, t, s') {
      AcquireOnCourse(cfg, s, t, i, s');
    } else if Unlock(s, t, s') {
      UnlockOnCourse(cfg, s, t, i, s');
    } else {
      PoolStepsOnCourse(cfg, s, t, i, s');
    }
  }

  lemma WriteOnCourse(cfg: Config, s: Sys, t: nat, i: nat, s': Sys)
    requires InMalloc(cfg, s, t, i) && IsClientWrite(s, s')
    ensures OnCourse(cfg, s, t, i, s')
  {
    TotalAligned(i);
  }

  /** The last step of a plain malloc. */
  lemma MallocReturns(cfg: Config, s: Sys, t: nat, i: nat, s': Sys)
    requires InMalloc(cfg, s, t, i) && s.threads[t].at.Returning? && s.threads[t].source == 0
    requires ThreadStep(cfg, s, t, s')
    ensures 0 < Total(i) && t in s'.threads && s'.threads[t].at.Idle?
    ensures s'.held == s.held + NonNull(Due(cfg, s, t, i).0) && CachedOf(s', t, i) == Due(cfg, s, t, i).1
  {
    TotalAligned(i);
    assert Return(s, t, s');
  }

  /** t is inside one plain malloc of class i whose outcome is `due`. */
  ghost predicate Pending(cfg: Config, s: Sys, t: nat, i: nat, due: (int, TC.Cached), held: set<int>) {
    0 < Total(i) && InMalloc(cfg, s, t, i) && s.threads[t].source == 0 && Due(cfg, s, t, i) == due && s.held == held
  }

  lemma MallocBegins(cfg: Config, s: Sys, t: nat, n: int, i: nat, s': Sys)
    requires StartMalloc(s, t, n, s') && i == ClassFor(n) < CLASSES && 0 < Total(i)
    ensures Pending(cfg, s', t, i, Served(cfg, CachedOf(s, t, i), i), s.held)
  {
  }

  lemma PendingStays(cfg: Config, run: seq<Sys>, t: nat, i: nat, k: nat, due: (int, TC.Cached), held: set<int>)
    requires IsRun(cfg, run) && Moves(cfg, run, t, k) && Pending(cfg, run[k], t, i, due, held)
    requires Busy(run, t, k + 1)
    ensures Pending(cfg, run[k + 1], t, i, due, held)
  {
    RunInv(cfg, run, k);
    if IsClientWrite(run[k], run[k + 1]) {
      WriteOnCourse(cfg, run[k], t, i, run[k + 1]);
    } else if run[k].threads[t].at.Returning? {
      MallocReturns(cfg, run[k], t, i, run[k + 1]);
    } else {
      MallocOnCourse(cfg, run[k], t, i, run[k + 1]);
    }
  }

  /** From state j, where it is idle, to state k, where it next is, t makes one call and no other
      thread moves. */
  ghost predicate CallAlone(cfg: Config, run: seq<Sys>, t: nat, j: nat, k: nat) {
    && j + 1 < k < |run| && OnlyRuns(cfg, run, t, j, k)
    && t in run[j].threads && run[j].threads[t].at.Idle? && t in run[k].threads && run[k].threads[t].at.Idle?
    && forall m {:trigger Busy(run, t, m)} | j < m < k :: Busy(run, t, m)
  }

  ghost predicate Busy(run: seq<Sys>, t: nat, m: int) {
    0 <= m < |run| && t in run[m].threads && !run[m].threads[t].at.Idle?
  }

  lemma PendingFollows(cfg: Config, run: seq<Sys>, t: nat, i: nat, j: nat, k: nat, m: nat,
                       due: (int, TC.Cached), held: set<int>)
    requires IsRun(cfg, run) && CallAlone(cfg, run, t, j, k) && j < m && m + 1 < k
    requires Pending(cfg, run[m], t, i, due, held)
    ensures Pending(cfg, run[m + 1], t, i, due, held)
  {
    assert Moves(cfg, run, t, m) && Busy(run, t, m + 1);
    PendingStays(cfg, run, t, i, m, due, held);
  }

  lemma LastMove(cfg: Config, run: seq<Sys>, t: nat, j: nat, k: nat)
    requires CallAlone(cfg, run, t, j, k)
    ensures MovesTo(cfg, run[k - 1], t, run[k]) && Busy(run, t, k - 1)
  {
    assert Moves(cfg, run, t, k - 1) && Busy(run, t, k - 1);
  }

  lemma {:induction false} PendingUntil(cfg: Config, run: seq<Sys>, t: nat, i: nat, j: nat, k: nat, m: nat,
                                        due: (int, TC.Cached), held: set<int>)
    requires IsRun(cfg, run) && CallAlone(cfg, run, t, j, k) && j < m < k
    requires Pending(cfg, run[j + 1], t, i, due, held)
    ensures Pending(cfg, run[m], t, i, due, held)
    decreases m
  {
    if m == j + 1 {
    } else {
      PendingUntil(cfg, run, t, i, j, k, m - 1, due, held);
      PendingFollows(cfg, run, t, i, j, k, m - 1, due, held);
    }
  }

  lemma PendingEnds(cfg: Config, s: Sys, t: nat, i: nat, s': Sys, due: (int, TC.Cached), held: set<int>)
    requires Inv(cfg, s) && MovesTo(cfg, s, t, s') && Pending(cfg, s, t, i, due, held)
    requires !s.threads[t].at.Idle? && t in s'.threads && s'.threads[t].at.Idle?
    ensures CachedOf(s', t, i) == due.1 && s'.held == held + NonNull(due.0)
    ensures due.0 != 0 ==> due.0 !in held
  {
    IsReady(cfg, s, t);
    assert s.threads[t].result != 0 ==> s.threads[t].result in Regs(s.threads[t]);
    if ThreadStep(cfg, s, t, s') {
      if s.threads[t].at.Returning? {
        MallocReturns(cfg, s, t, i, s');
      } else {
        MallocOnCourse(cfg, s, t, i, s');
      }
    }
  }

  lemma PendingLast(cfg: Config, run: seq<Sys>, t: nat, i: nat, j: nat, k: nat, due: (int, TC.Cached), held: set<int>)
    requires IsRun(cfg, run) && CallAlone(cfg, run, t, j, k) && Pending(cfg, run[k - 1], t, i, due, held)
    ensures CachedOf(run[k], t, i) == due.1 && run[k].held == held + NonNull(due.0)
    ensures due.0 != 0 ==> due.0 !in held
  {
    var s, s' := run[k - 1], run[k];
    LastMove(cfg, run, t, j, k);
    RunInv(cfg, run, k - 1);
    PendingEnds(cfg, s, t, i, s', due, held);
  }

  lemma PendingThrough(cfg: Config, run: seq<Sys>, t: nat, i: nat, j: nat, k: nat, due: (int, TC.Cached), held: set<int>)
    requires IsRun(cfg, run) && CallAlone(cfg, run, t, j, k) && Pending(cfg, run[j + 1], t, i, due, held)
    ensures CachedOf(run[k], t, i) == due.1 && run[k].held == held + NonNull(due.0)
    ensures due.0 != 0 ==> due.0 !in held
  {
    PendingUntil(cfg, run, t, i, j, k, k - 1, due, held);
    PendingLast(cfg, run, t, i, j, k, due, held);
  }

  /** A pooled my_malloc of a thread that runs alone serves the slot, and leaves the cache, the
      pool and the system, as the functions say that specify the classes. */
  lemma MallocServes(cfg: Config, run: seq<Sys>, t: nat, n: int, i: nat, j: nat, k: nat)
    requires IsRun(cfg, run) && CallAlone(cfg, run, t, j, k)
    requires StartMalloc(run[j], t, n, run[j + 1]) && i == ClassFor(n) < CLASSES
    ensures 0 < Total(i)
    ensures var (ptr, after) := Served(cfg, CachedOf(run[j], t, i), i);
            && CachedOf(run[k], t, i) == after && run[k].held == run[j].held + NonNull(ptr)
            && (ptr != 0 ==> ptr !in run[j].held)
  {
    TotalAligned(i);
    var due := Served(cfg, CachedOf(run[j], t, i), i);
    MallocBegins(cfg, run[j], t, n, i, run[j + 1]);
    PendingThrough(cfg, run, t, i, j, k, due, run[j].held);
  }

  // ---- my_free, step by step -------------------------------------------------------------------------

  /** The pointer t is freeing is a live slot of class i. */
  ghost predicate FreesSlot(s: Sys, th: Thread, i: nat) {
    th.ptr - HEADER in s.sl.live && s.sl.live[th.ptr - HEADER] == i
  }

  /** t is inside a free of a slot of class i, at a label of its stage. */
  ghost predicate InFree(cfg: Config, s: Sys, t: nat, i: nat) {
    && t in s.threads && i < CLASSES
    && var th := s.threads[t];
    || (th.at.FreeTag? && FreesSlot(s, th, i))
    || (th.i == i && (th.at.Freed? || (th.at.Leave? && th.at.next.Freed?)))
    || (th.i == i
        && if cfg.stage == 3 then (th.at.CacheFree? && FreesSlot(s, th, i)) || th.at.Detaching? || th.at.FlushWait? || th.at.Flushing?
           else (th.at.PoolFreeWait? || th.at.PoolFree?) && FreesSlot(s, th, i))
  }

  /** What t's free will have left when it returns, if only t runs. */
  ghost function Owed(cfg: Config, s: Sys, t: nat, i: nat): TC.Cached
    requires t in s.threads
  {
    var th, c := s.threads[t], CachedOf(s, t, i);
    if th.at.Detaching? then TC.Flushed(c)
    else if th.at.FlushWait? || th.at.Flushing? then c.(chain := At(s.sl, InFlight(t, i)) + c.chain)
    else if th.at.Freed? || th.at.Leave? then c
    else TakenBack(cfg, c, th.ptr - HEADER)
  }

  ghost predicate KeepsFreeing(cfg: Config, s: Sys, t: nat, i: nat, s': Sys) {
    && t in s.threads && InFree(cfg, s', t, i) && Owed(cfg, s', t, i) == Owed(cfg, s, t, i)
    && s'.held == s.held && s'.threads[t].result == s.threads[t].result
  }

  lemma ReadTagFrees(cfg: Config, s: Sys, t: nat, i: nat, s': Sys)
    requires MemoryOk(cfg, s) && InFree(cfg, s, t, i) && ReadTag(cfg, s, t, s')
    ensures KeepsFreeing(cfg, s, t, i, s')
  {
    TagRoutes(cfg, s, s.threads[t].ptr);
  }

  lemma PushFrees(cfg: Config, s: Sys, t: nat, i: nat, s': Sys)
    requires InFree(cfg, s, t, i) && (CachePush(s, t, s') || PoolPush(cfg, s, t, s'))
    ensures KeepsFreeing(cfg, s, t, i, s')
  {
  }

  lemma FlushFrees(cfg: Config, s: Sys, t: nat, i: nat, s': Sys)
    requires InFree(cfg, s, t, i) && CacheOk(s, t, s.threads[t], i) && (Detach(s, t, s') || SpliceBack(cfg, s, t, s'))
    ensures KeepsFreeing(cfg, s, t, i, s')
  {
  }

  lemma LockFrees(cfg: Config, s: Sys, t: nat, i: nat, s': Sys)
    requires InFree(cfg, s, t, i) && (Acquire(cfg, s, t, s') || Unlock(s, t, s'))
    ensures KeepsFreeing(cfg, s, t, i, s')
  {
  }

  lemma OnlyFreeSteps(cfg: Config, s: Sys, t: nat, i: nat, s': Sys)
    requires InFree(cfg, s, t, i) && !s.threads[t].at.Freed? && ThreadStep(cfg, s, t, s')
    ensures ReadTag(cfg, s, t, s') || Acquire(cfg, s, t, s') || Unlock(s, t, s')
            || CachePush(s, t, s') || PoolPush(cfg, s, t, s') || Detach(s, t, s') || SpliceBack(cfg, s, t, s')
  {
  }

  lemma FreeOnCourse(cfg: Config, s: Sys, t: nat, i: nat, s': Sys)
    requires Inv(cfg, s) && InFree(cfg, s, t, i) && ThreadStep(cfg, s, t, s') && !s.threads[t].at.Freed?
    ensures KeepsFreeing(cfg, s, t, i, s')
  {
    AreReady(cfg, s, t, i);
    OnlyFreeSteps(cfg, s, t, i, s');
    if ReadTag(cfg, s, t, s') {
      ReadTagFrees(cfg, s, t, i, s');
    } else if CachePush(s, t, s') || PoolPush(cfg, s, t, s') {
      PushFrees(cfg, s, t, i, s');
    } else if Detach(s, t, s') || SpliceBack(cfg, s, t, s') {
      FlushFrees(cfg, s, t, i, s');
    } else {
      LockFrees(cfg, s, t, i, s');
    }
  }

  lemma WriteKeepsFreeing(cfg: Config, s: Sys, t: nat, i: nat, s': Sys)
    requires InFree(cfg, s, t, i) && IsClientWrite(s, s')
    ensures KeepsFreeing(cfg, s, t, i, s')
  {
  }

  lemma FreeReturns(cfg: Config, s: Sys, t: nat, i: nat, s': Sys)
    requires InFree(cfg, s, t, i) && s.threads[t].at.Freed? && s.threads[t].result == 0 && ThreadStep(cfg, s, t, s')
    ensures t in s'.threads && s'.threads[t].at.Idle? && s'.held == s.held && CachedOf(s', t, i) == Owed(cfg, s, t, i)
  {
    assert FreeReturn(s, t, s');
  }

  // ---- A whole my_free -------------------------------------------------------------------------------

  ghost predicate Freeing(cfg: Config, s: Sys, t: nat, i: nat, owed: TC.Cached, held: set<int>) {
    InFree(cfg, s, t, i) && s.threads[t].result == 0 && Owed(cfg, s, t, i) == owed && s.held == held
  }

  lemma FreeBegins(cfg: Config, s: Sys, t: nat, x: int, i: nat, s': Sys)
    requires StartFree(s, t, x + HEADER, s') && x in s.sl.live && s.sl.live[x] == i < CLASSES
    ensures Freeing(cfg, s', t, i, TakenBack(cfg, CachedOf(s, t, i), x), s.held - {x + HEADER})
  {
    assert s'.threads[t].ptr - HEADER == x;
  }

  lemma FreeingFollows(cfg: Config, run: seq<Sys>, t: nat, i: nat, j: nat, k: nat, m: nat, owed: TC.Cached, held: set<int>)
    requires IsRun(cfg, run) && CallAlone(cfg, run, t, j, k) && j < m && m + 1 < k
    requires Freeing(cfg, run[m], t, i, owed, held)
    ensures Freeing(cfg, run[m + 1], t, i, owed, held)
  {
    assert Moves(cfg, run, t, m) && Busy(run, t, m + 1);
    RunInv(cfg, run, m);
    if IsClientWrite(run[m], run[m + 1]) {
      WriteKeepsFreeing(cfg, run[m], t, i, run[m + 1]);
    } else if run[m].threads[t].at.Freed? {
      FreeReturns(cfg, run[m], t, i, run[m + 1]);
    } else {
      FreeOnCourse(cfg, run[m], t, i, run[m + 1]);
    }
  }

  lemma {:induction false} FreeingUntil(cfg: Config, run: seq<Sys>, t: nat, i: nat, j: nat, k: nat, m: nat,
                                        owed: TC.Cached, held: set<int>)
    requires IsRun(cfg, run) && CallAlone(cfg, run, t, j, k) && j < m < k
    requires Freeing(cfg, run[j + 1], t, i, owed, held)
    ensures Freeing(cfg, run[m], t, i, owed, held)
    decreases m
  {
    if m == j + 1 {
    } else {
      FreeingUntil(cfg, run, t, i, j, k, m - 1, owed, held);
      FreeingFollows(cfg, run, t, i, j, k, m - 1, owed, held);
    }
  }

  lemma FreeingEnds(cfg: Config, s: Sys, t: nat, i: nat, s': Sys, owed: TC.Cached, held: set<int>)
    requires Inv(cfg, s) && MovesTo(cfg, s, t, s') && Freeing(cfg, s, t, i, owed, held)
    requires !s.threads[t].at.Idle? && t in s'.threads && s'.threads[t].at.Idle?
    ensures CachedOf(s', t, i) == owed && s'.held == held
  {
    if ThreadStep(cfg, s, t, s') {
      if s.threads[t].at.Freed? {
        FreeReturns(cfg, s, t, i, s');
      } else {
        FreeOnCourse(cfg, s, t, i, s');
      }
    }
  }

  lemma FreeingLast(cfg: Config, run: seq<Sys>, t: nat, i: nat, j: nat, k: nat, owed: TC.Cached, held: set<int>)
    requires IsRun(cfg, run) && CallAlone(cfg, run, t, j, k) && Freeing(cfg, run[k - 1], t, i, owed, held)
    ensures CachedOf(run[k], t, i) == owed && run[k].held == held
  {
    var s, s' := run[k - 1], run[k];
    LastMove(cfg, run, t, j, k);
    RunInv(cfg, run, k - 1);
    FreeingEnds(cfg, s, t, i, s', owed, held);
  }

  lemma FreeingThrough(cfg: Config, run: seq<Sys>, t: nat, i: nat, j: nat, k: nat, owed: TC.Cached, held: set<int>)
    requires IsRun(cfg, run) && CallAlone(cfg, run, t, j, k) && Freeing(cfg, run[j + 1], t, i, owed, held)
    ensures CachedOf(run[k], t, i) == owed && run[k].held == held
  {
    FreeingUntil(cfg, run, t, i, j, k, k - 1, owed, held);
    FreeingLast(cfg, run, t, i, j, k, owed, held);
  }

  /** A pooled my_free of a thread that runs alone leaves the cache, the pool and the system as the
      functions say that specify the classes, and hands the pointer in. */
  lemma FreeLeaves(cfg: Config, run: seq<Sys>, t: nat, x: int, i: nat, j: nat, k: nat)
    requires IsRun(cfg, run) && CallAlone(cfg, run, t, j, k)
    requires StartFree(run[j], t, x + HEADER, run[j + 1]) && x in run[j].sl.live && run[j].sl.live[x] == i < CLASSES
    ensures CachedOf(run[k], t, i) == TakenBack(cfg, CachedOf(run[j], t, i), x)
    ensures run[k].held == run[j].held - {x + HEADER}
  {
    var owed, held := TakenBack(cfg, CachedOf(run[j], t, i), x), run[j].held - {x + HEADER};
    FreeBegins(cfg, run[j], t, x, i, run[j + 1]);
    FreeingThrough(cfg, run, t, i, j, k, owed, held);
  }

  // ---- Call after call -------------------------------------------------------------------------------

  /** One pooled call of class i in stage 3, from state j to state k: a malloc that hands out
      `slot` (0 for null), or a free. */
  ghost predicate PooledOp(cfg: Config, run: seq<Sys>, t: nat, i: nat, j: nat, k: nat, op: CL.Op, slot: int) {
    && CallAlone(cfg, run, t, j, k)
    && match op
       case MallocOp =>
         (exists n :: StartMalloc(run[j], t, n, run[j + 1]) && ClassFor(n) == i)
         && run[k].held == run[j].held + NonNull(SlotPtr(slot))
         && 0 <= slot && (slot != 0 ==> SlotPtr(slot) !in run[j].held)
       case FreeOp(x) => StartFree(run[j], t, x + HEADER, run[j + 1]) && x in run[j].sl.live && run[j].sl.live[x] == i
       case Others(_, _) => false
  }

  /** The calls ops[0], ops[1], ... of t, from states at[0], at[1], ... of the run. */
  ghost predicate PooledOps(cfg: Config, run: seq<Sys>, t: nat, i: nat, at: seq<nat>, ops: seq<CL.Op>, slots: seq<int>) {
    && |at| == |ops| + 1 && |slots| == |ops| && at[0] < |run|
    && (ops != [] ==> PooledOp(cfg, run, t, i, at[0], at[1], ops[0], slots[0]) && PooledOps(cfg, run, t, i, at[1..], ops[1..], slots[1..]))
  }

  /** The slots handed out, in order. */
  ghost function HandedOut(ops: seq<CL.Op>, slots: seq<int>): seq<int>
    requires |slots| == |ops|
  {
    if ops == [] then [] else (if ops[0].MallocOp? then [slots[0]] else []) + HandedOut(ops[1..], slots[1..])
  }

  lemma SameHanded(held: set<int>, p: int, q: int)
    requires held + NonNull(p) == held + NonNull(q)
    requires (p != 0 ==> p !in held) && (q != 0 ==> q !in held)
    ensures p == q
  {
    assert p in NonNull(p) ==> p in held + NonNull(q);
    assert q in NonNull(q) ==> q in held + NonNull(p);
  }

  /** Each call is one step of the cache, and hands out its slot. */
  lemma OpIsStep(cfg: Config, run: seq<Sys>, t: nat, i: nat, j: nat, k: nat, op: CL.Op, slot: int)
    requires IsRun(cfg, run) && cfg.stage == 3 && i < CLASSES && PooledOp(cfg, run, t, i, j, k, op, slot)
    ensures 0 < Total(i) && CachedOf(run[k], t, i) == CL.Step(CachedOf(run[j], t, i), op, Total(i))
    ensures op.MallocOp? ==> slot == TC.Malloc(CachedOf(run[j], t, i), Total(i)).0
  {
    TotalAligned(i);
    match op
    case MallocOp =>
      var n :| StartMalloc(run[j], t, n, run[j + 1]) && ClassFor(n) == i;
      MallocServes(cfg, run, t, n, i, j, k);
      RunInv(cfg, run, j);
      ServedPositive(cfg, run[j], t, i);
      SameHanded(run[j].held, SlotPtr(slot), Served(cfg, CachedOf(run[j], t, i), i).0);
    case FreeOp(x) =>
      FreeLeaves(cfg, run, t, x, i, j, k);
  }

  lemma CachedPositive(cfg: Config, s: Sys, t: nat, i: nat)
    requires Inv(cfg, s) && t in s.threads
    ensures CL.ChainsPositive(CachedOf(s, t, i))
  {
    AreReady(cfg, s, t, i);
    var c := CachedOf(s, t, i);
    forall k | 0 <= k < |c.cache| ensures 0 < c.cache[k] {
      assert c.cache[k] in c.cache;
    }
    forall k | 0 <= k < |c.chain| ensures 0 < c.chain[k] {
      assert c.chain[k] in c.chain;
    }
  }

  lemma ServedPositive(cfg: Config, s: Sys, t: nat, i: nat)
    requires Inv(cfg, s) && t in s.threads && i < CLASSES
    ensures 0 < Total(i) && 0 <= TC.Malloc(CachedOf(s, t, i), Total(i)).0
  {
    TotalAligned(i);
    CachedPositive(cfg, s, t, i);
    CL.MallocPositive(CachedOf(s, t, i), Total(i));
  }

  /** The slots handed out by any number of pooled calls of a thread that runs alone are those the
      cache serves, in order. */
  lemma {:induction false} CallsServe(cfg: Config, run: seq<Sys>, t: nat, i: nat, at: seq<nat>, ops: seq<CL.Op>, slots: seq<int>)
    requires IsRun(cfg, run) && cfg.stage == 3 && i < CLASSES && PooledOps(cfg, run, t, i, at, ops, slots)
    ensures 0 < Total(i) && HandedOut(ops, slots) == CL.CacheServes(CachedOf(run[at[0]], t, i), ops, Total(i))
    decreases |ops|
  {
    TotalAligned(i);
    if ops == [] {
    } else {
      OpIsStep(cfg, run, t, i, at[0], at[1], ops[0], slots[0]);
      CallsServe(cfg, run, t, i, at[1..], ops[1..], slots[1..]);
    }
  }

  /** On a run, the pooled calls of a thread that runs alone hand out, until its first flush, the
      slots that direct locked use of the pool would have, in the same order. */
  lemma CallsServeLikeStack(cfg: Config, run: seq<Sys>, t: nat, i: nat, at: seq<nat>, ops: seq<CL.Op>, slots: seq<int>, stack: CL.Stack)
    requires IsRun(cfg, run) && cfg.stage == 3 && i < CLASSES && PooledOps(cfg, run, t, i, at, ops, slots)
    requires t in run[at[0]].threads && 0 < Total(i)
    requires var c := CachedOf(run[at[0]], t, i);
             CL.Simulates(c, stack, Total(i)) && CL.Supplied(c, ops, Total(i)) && CL.NoFlush(c, ops, Total(i))
    ensures HandedOut(ops, slots) == CL.StackServes(stack, ops, Total(i))
  {
    TotalAligned(i);
    RunInv(cfg, run, at[0]);
    CachedPositive(cfg, run[at[0]], t, i);
    CallsServe(cfg, run, t, i, at, ops, slots);
    CL.CacheServesLikeStack(CachedOf(run[at[0]], t, i), stack, ops, Total(i));
  }

  // ---- A refill among other threads ------------------------------------------------------------------

  /** The slots of the arenas granted to t's refill between states j and k, in order. */
  ghost function Granted(run: seq<Sys>, t: nat, i: nat, j: nat, k: nat): seq<int>
    requires k < |run| && 0 < Total(i)
  {
    if k <= j then [] else Granted(run, t, i, j, k - 1) + NewSlots(run[k - 1], t, i, run[k])
  }

  ghost function NewSlots(s: Sys, t: nat, i: nat, s': Sys): seq<int>
    requires 0 < Total(i)
  {
    if ExpandGranted(s, t, s') && s.os.Ask(Total(i) * 256).0.Some? then
      var r := s.os.Ask(Total(i) * 256).0.value;
      Carved(r.base, r.size, Total(i))
    else []
  }

  ghost predicate Refills(s: Sys, t: nat, i: nat) {
    t in s.threads && s.threads[t].at.Refilling? && s.threads[t].i == i
  }

  ghost function BatchAndChain(s: Sys, t: nat, i: nat): seq<int> {
    At(s.sl, InFlight(t, i)) + At(s.sl, InPool(i))
  }

  lemma OwnRefillStep(cfg: Config, s: Sys, t: nat, i: nat, s': Sys)
    requires Refills(s, t, i) && Refills(s', t, i) && ThreadStep(cfg, s, t, s')
    ensures RefillTake(s, t, s') || ExpandGranted(s, t, s')
  {
  }

  lemma RefillOrder(cfg: Config, s: Sys, t: nat, i: nat, s': Sys)
    requires Refills(s, t, i) && 0 < Total(i) && (RefillTake(s, t, s') || ExpandGranted(s, t, s'))
    ensures BatchAndChain(s', t, i) == BatchAndChain(s, t, i) + NewSlots(s, t, i, s')
  {
    var flight, chain := At(s.sl, InFlight(t, i)), At(s.sl, InPool(i));
    if ExpandGranted(s, t, s') {
      assert chain == [];
    } else {
      assert flight + [chain[0]] + chain[1..] == flight + chain;
    }
  }

  /** No step of another thread touches the batch or the chain it is taken from. */
  lemma RefillUndisturbed(cfg: Config, s: Sys, t: nat, i: nat, u: nat, s': Sys)
    requires Inv(cfg, s) && Refills(s, t, i) && ThreadStep(cfg, s, u, s') && u != t
    ensures BatchAndChain(s', t, i) == BatchAndChain(s, t, i)
  {
    StepKeeps(cfg, s, u, s');
    GuardedByLocks(cfg, s, u, s', i, t);
    assert SamePlaces(s, s', t, i);
  }

  lemma RefillFollows(cfg: Config, s: Sys, t: nat, i: nat, s': Sys)
    requires Inv(cfg, s) && Next(cfg, s, s') && Refills(s, t, i) && Refills(s', t, i) && 0 < Total(i)
    ensures BatchAndChain(s', t, i) == BatchAndChain(s, t, i) + NewSlots(s, t, i, s')
  {
    if ExpandGranted(s, t, s') || RefillTake(s, t, s') {
      RefillOrder(cfg, s, t, i, s');
    } else {
      assert BatchAndChain(s, t, i) + [] == BatchAndChain(s, t, i);
      if u :| ThreadStep(cfg, s, u, s') {
        if u == t {
          OwnRefillStep(cfg, s, t, i, s');
        } else {
          RefillUndisturbed(cfg, s, t, i, u, s');
        }
      }
    }
  }

  ghost predicate RefillsAt(run: seq<Sys>, t: nat, i: nat, m: int) {
    0 <= m < |run| && Refills(run[m], t, i)
  }

  /** t is refilling its cache of class i in all of run[j..k]. */
  ghost predicate RefillsThrough(run: seq<Sys>, t: nat, i: nat, j: nat, k: nat) {
    forall m {:trigger RefillsAt(run, t, i, m)} | j <= m <= k :: RefillsAt(run, t, i, m)
  }

  lemma RefillStepAt(cfg: Config, run: seq<Sys>, t: nat, i: nat, j: nat, k: nat, m: nat)
    requires IsRun(cfg, run) && RefillsThrough(run, t, i, j, k) && j <= m < k < |run| && 0 < Total(i)
    ensures BatchAndChain(run[m + 1], t, i) == BatchAndChain(run[m], t, i) + NewSlots(run[m], t, i, run[m + 1])
  {
    RunInv(cfg, run, m);
    assert Follows(cfg, run, m) && RefillsAt(run, t, i, m) && RefillsAt(run, t, i, m + 1);
    RefillFollows(cfg, run[m], t, i, run[m + 1]);
  }

  ghost predicate OrderKept(run: seq<Sys>, t: nat, i: nat, j: nat, k: nat)
    requires j <= k < |run| && 0 < Total(i)
  {
    BatchAndChain(run[k], t, i) == BatchAndChain(run[j], t, i) + Granted(run, t, i, j, k)
  }

  lemma OrderStart(run: seq<Sys>, t: nat, i: nat, j: nat)
    requires j < |run| && 0 < Total(i)
    ensures OrderKept(run, t, i, j, j)
  {
    assert BatchAndChain(run[j], t, i) + [] == BatchAndChain(run[j], t, i);
  }

  lemma OrderStep(cfg: Config, run: seq<Sys>, t: nat, i: nat, j: nat, k: nat, m: nat)
    requires IsRun(cfg, run) && j < m <= k < |run| && 0 < Total(i) && RefillsThrough(run, t, i, j, k)
    requires OrderKept(run, t, i, j, m - 1)
    ensures OrderKept(run, t, i, j, m)
  {
    RefillStepAt(cfg, run, t, i, j, k, m - 1);
    AppendTwice(BatchAndChain(run[j], t, i), Granted(run, t, i, j, m - 1), NewSlots(run[m - 1], t, i, run[m]));
  }

  lemma AppendTwice(a: seq<int>, b: seq<int>, c: seq<int>)
    ensures a + b + c == a + (b + c)
  {
  }

  lemma {:induction false} OrderUntil(cfg: Config, run: seq<Sys>, t: nat, i: nat, j: nat, k: nat, m: nat)
    requires IsRun(cfg, run) && j <= m <= k < |run| && 0 < Total(i) && RefillsThrough(run, t, i, j, k)
    ensures OrderKept(run, t, i, j, m)
    decreases m
  {
    if m == j {
      OrderStart(run, t, i, j);
    } else {
      OrderUntil(cfg, run, t, i, j, k, m - 1);
      OrderStep(cfg, run, t, i, j, k, m);
    }
  }

  /** On every run, whatever other threads do: all through a refill the batch followed by the pool's
      chain is what the two were at its start, followed by the slots of the arenas granted to it.
      The batch grows at its end, by the first slot of the chain. */
  lemma RefillKeepsOrder(cfg: Config, run: seq<Sys>, t: nat, i: nat, j: nat, k: nat)
    requires IsRun(cfg, run) && j <= k < |run| && 0 < Total(i)
    requires RefillsThrough(run, t, i, j, k)
    ensures BatchAndChain(run[k], t, i) == BatchAndChain(run[j], t, i) + Granted(run, t, i, j, k)
  {
    OrderUntil(cfg, run, t, i, j, k, k);
  }
}
