/** How rarely a thread locks a pool: on every run of any number of threads, N operations of one
    thread on one size class acquire the pool's mutex at most 1 + (N - 1) / 32 times. */
module ThreadBudget {
  import opened Machine
  import opened SlotSystem
  import opened Threads
  import opened ThreadInvariant
  import opened ThreadLaws
  import CL = CacheLaws

  // ---- What is counted ---------------------------------------------------------------------------

  /** Thread t acquires the mutex of pool i. */
  ghost predicate LocksPool(cfg: Config, s: Sys, t: nat, i: nat, s': Sys) {
    Acquire(cfg, s, t, s') && WaitsFor(cfg, s.threads[t]) == Some(PoolLock(cfg, i))
  }

  /** Thread t takes a slot from its cache of class i. */
  ghost predicate PopsCache(cfg: Config, s: Sys, t: nat, i: nat, s': Sys) {
    && Dispatch(cfg, s, t, s') && ClassFor(s.threads[t].n) == i < CLASSES
    && cfg.stage == 3 && At(s.sl, InCache(t, i)) != []
  }

  /** Thread t puts a slot into its cache of class i. */
  ghost predicate PushesCache(s: Sys, t: nat, i: nat, s': Sys) {
    CachePush(s, t, s') && s.threads[t].i == i
  }

  ghost predicate UsesCache(cfg: Config, s: Sys, t: nat, i: nat, s': Sys) {
    PopsCache(cfg, s, t, i, s') || PushesCache(s, t, i, s')
  }

  /** The system refuses pool i an arena during a refill of t's. */
  ghost predicate Starved(cfg: Config, s: Sys, t: nat, i: nat, s': Sys) {
    ExpandRefused(cfg, s, t, s') && s.threads[t].i == i
  }

  /** How often t acquires pool i's mutex between states j and k. */
  ghost function Locks(cfg: Config, run: seq<Sys>, t: nat, i: nat, j: nat, k: nat): nat
    requires k < |run|
  {
    if k <= j then 0
    else Locks(cfg, run, t, i, j, k - 1) + if LocksPool(cfg, run[k - 1], t, i, run[k]) then 1 else 0
  }

  /** How many slots t takes from and puts into its cache of class i between states j and k. */
  ghost function Uses(cfg: Config, run: seq<Sys>, t: nat, i: nat, j: nat, k: nat): nat
    requires k < |run|
  {
    if k <= j then 0
    else Uses(cfg, run, t, i, j, k - 1) + if UsesCache(cfg, run[k - 1], t, i, run[k]) then 1 else 0
  }

  ghost predicate Supplied(cfg: Config, run: seq<Sys>, t: nat, i: nat, j: nat, k: nat)
    requires k < |run|
  {
    forall m | j <= m < k :: !Starved(cfg, run[m], t, i, run[m + 1])
  }

  // ---- How far the next acquisition is ------------------------------------------------------------

  /** How many uses of the cache must still come before t can acquire pool i's mutex. */
  ghost function Reserve(s: Sys, t: nat, i: nat): int {
    if t !in s.threads then 0
    else
      var th, cache := s.threads[t], |At(s.sl, InCache(t, i))|;
      if th.i == i && (th.at.Detaching? || th.at.FlushWait?) then 0
      else if th.i == i && th.at.Refilling? then 33
      else if th.i == i && (th.at.Installing? || (th.at.Leave? && th.at.next.Installing?)) then |At(s.sl, InFlight(t, i))| + 1
      else if th.at.Calling? && ClassFor(th.n) == i && cache == 32 then 33
      else CL.Distance(cache)
  }

  /** In stage 3 no thread works on a pool's chain one slot at a time. */
  ghost predicate OnlyBatches(at: Label) {
    !at.PoolWait? && !at.PoolAlloc? && !at.PoolFreeWait? && !at.PoolFree?
  }

  /** A step of t uses up at most what it counts as, and an acquisition adds a whole batch. */
  ghost predicate Accounted(cfg: Config, s: Sys, t: nat, i: nat, s': Sys) {
    Reserve(s, t, i) + (if LocksPool(cfg, s, t, i, s') then 32 else 0)
      <= Reserve(s', t, i) + (if UsesCache(cfg, s, t, i, s') then 1 else 0)
  }

  // ---- Every step is accounted for -----------------------------------------------------------------

  lemma AcquireAccounted(cfg: Config, s: Sys, t: nat, i: nat, s': Sys)
    requires cfg.stage == 3 && i < CLASSES && Acquire(cfg, s, t, s')
    requires ThreadOk(s, t) && OnlyBatches(s.threads[t].at)
    ensures Accounted(cfg, s, t, i, s') && OnlyBatches(s'.threads[t].at)
  {
    assert CacheOk(s, t, s.threads[t], i);
  }

  /** Labels at which nothing is known of the next acquisition but the cache's length. */
  predicate Plain(at: Label) {
    !at.Detaching? && !at.FlushWait? && !at.Refilling? && !at.Installing? && !(at.Leave? && at.next.Installing?)
  }

  /** A step between plain labels that leaves the cache alone. */
  ghost predicate PlainMove(cfg: Config, s: Sys, t: nat, s': Sys) {
    && t in s.threads && t in s'.threads && s'.sl == s.sl
    && WaitsFor(cfg, s.threads[t]) == None && !s.threads[t].at.Calling? && !s.threads[t].at.CacheFree?
    && Plain(s.threads[t].at) && Plain(s'.threads[t].at) && OnlyBatches(s'.threads[t].at)
  }

  lemma PlainAccounted(cfg: Config, s: Sys, t: nat, i: nat, s': Sys)
    requires PlainMove(cfg, s, t, s')
    ensures Accounted(cfg, s, t, i, s')
  {
  }

  lemma StartsArePlain(cfg: Config, s: Sys, t: nat, s': Sys)
    requires (exists n :: StartMalloc(s, t, n, s')) || (exists p :: StartFree(s, t, p, s'))
             || (exists p, n :: StartRealloc(s, t, p, n, s'))
    ensures PlainMove(cfg, s, t, s')
  {
  }

  lemma RoutesArePlain(cfg: Config, s: Sys, t: nat, s': Sys)
    requires cfg.stage == 3 && (ReadTag(cfg, s, t, s') || ReallocRoute(cfg, s, t, s'))
    ensures PlainMove(cfg, s, t, s')
  {
  }

  lemma ReturnsArePlain(cfg: Config, s: Sys, t: nat, s': Sys)
    requires Return(s, t, s') || FreeReturn(s, t, s')
    ensures PlainMove(cfg, s, t, s')
  {
  }

  lemma TakeIsPlain(cfg: Config, s: Sys, t: nat, s': Sys)
    requires GeneralTake(cfg, s, t, s'.words, s') || GeneralRelease(cfg, s, t, s'.words, s')
    ensures PlainMove(cfg, s, t, s')
  {
  }

  lemma SectionsArePlain(cfg: Config, s: Sys, t: nat, s': Sys)
    requires HeapAct(cfg, s, t, s')
    ensures PlainMove(cfg, s, t, s')
  {
    if GeneralTake(cfg, s, t, s'.words, s') || GeneralRelease(cfg, s, t, s'.words, s') {
      TakeIsPlain(cfg, s, t, s');
    }
  }

  lemma UnlockAccounted(cfg: Config, s: Sys, t: nat, i: nat, s': Sys)
    requires Unlock(s, t, s') && RegsOk(s, s.threads[t])
    ensures Accounted(cfg, s, t, i, s') && t in s'.threads && OnlyBatches(s'.threads[t].at)
  {
    assert Sensible(s.threads[t].at);
  }

  lemma RefillAccounted(cfg: Config, s: Sys, t: nat, i: nat, s': Sys)
    requires cfg.stage == 3 && i < CLASSES && !Starved(cfg, s, t, i, s')
    requires RefillTake(s, t, s') || ExpandGranted(s, t, s') || ExpandRefused(cfg, s, t, s')
             || RefillFull(cfg, s, t, s') || Install(s, t, s')
    requires ThreadOk(s, t) && OnlyBatches(s.threads[t].at)
    ensures Accounted(cfg, s, t, i, s') && OnlyBatches(s'.threads[t].at)
  {
    assert CacheOk(s, t, s.threads[t], i);
  }

  lemma DispatchAccounted(cfg: Config, s: Sys, t: nat, i: nat, s': Sys)
    requires cfg.stage == 3 && i < CLASSES && Dispatch(cfg, s, t, s')
    ensures Accounted(cfg, s, t, i, s') && t in s'.threads && OnlyBatches(s'.threads[t].at)
  {
    var j := ClassFor(s.threads[t].n);
    if j < CLASSES && At(s.sl, InCache(t, j)) != [] {
      assert j != i ==> At(s'.sl, InCache(t, i)) == At(s.sl, InCache(t, i));
    }
  }

  lemma PushAccounted(cfg: Config, s: Sys, t: nat, i: nat, s': Sys)
    requires i < CLASSES && CachePush(s, t, s')
    ensures Accounted(cfg, s, t, i, s') && t in s'.threads && OnlyBatches(s'.threads[t].at)
  {
  }

  lemma FlushAccounted(cfg: Config, s: Sys, t: nat, i: nat, s': Sys)
    requires cfg.stage == 3 && i < CLASSES
    requires Detach(s, t, s') || SpliceBack(cfg, s, t, s')
    requires ThreadOk(s, t) && OnlyBatches(s.threads[t].at)
    ensures Accounted(cfg, s, t, i, s') && OnlyBatches(s'.threads[t].at)
  {
    assert CacheOk(s, t, s.threads[t], i);
  }

  lemma OwnStepAccounted(cfg: Config, s: Sys, t: nat, i: nat, s': Sys)
    requires cfg.stage == 3 && i < CLASSES && !Starved(cfg, s, t, i, s')
    requires ThreadStep(cfg, s, t, s') && t in s.threads && ThreadOk(s, t) && OnlyBatches(s.threads[t].at)
    ensures Accounted(cfg, s, t, i, s') && t in s'.threads && OnlyBatches(s'.threads[t].at)
  {
    StepActs(cfg, s, t, s');
    if Acquire(cfg, s, t, s') {
      AcquireAccounted(cfg, s, t, i, s');
    } else if Unlock(s, t, s') {
      UnlockAccounted(cfg, s, t, i, s');
    } else if SlotAct(cfg, s, t, s') {
      SlotAccounted(cfg, s, t, i, s');
    } else {
      if HeapAct(cfg, s, t, s') {
        SectionsArePlain(cfg, s, t, s');
      } else if ReadTag(cfg, s, t, s') || ReallocRoute(cfg, s, t, s') {
        RoutesArePlain(cfg, s, t, s');
      } else if Return(s, t, s') || FreeReturn(s, t, s') {
        ReturnsArePlain(cfg, s, t, s');
      } else {
        StartsArePlain(cfg, s, t, s');
      }
      PlainAccounted(cfg, s, t, i, s');
    }
  }

  lemma SlotAccounted(cfg: Config, s: Sys, t: nat, i: nat, s': Sys)
    requires cfg.stage == 3 && i < CLASSES && !Starved(cfg, s, t, i, s')
    requires SlotAct(cfg, s, t, s') && t in s.threads && ThreadOk(s, t) && OnlyBatches(s.threads[t].at)
    ensures Accounted(cfg, s, t, i, s') && t in s'.threads && OnlyBatches(s'.threads[t].at)
  {
    if Dispatch(cfg, s, t, s') {
      DispatchAccounted(cfg, s, t, i, s');
    } else if CachePush(s, t, s') {
      PushAccounted(cfg, s, t, i, s');
    } else if Detach(s, t, s') || SpliceBack(cfg, s, t, s') {
      FlushAccounted(cfg, s, t, i, s');
    } else if !PoolTake(cfg, s, t, s') && !PoolPush(cfg, s, t, s') {
      RefillAccounted(cfg, s, t, i, s');
    }
  }

  // ---- Along every run -------------------------------------------------------------------------------

  /** Steps of other threads, and of clients, leave t's account alone. */
  lemma OthersAccounted(cfg: Config, s: Sys, t: nat, i: nat, s': Sys)
    requires t in s.threads && t in s'.threads && s'.threads[t] == s.threads[t] && SamePlaces(s, s', t, i)
    ensures Reserve(s', t, i) == Reserve(s, t, i)
    ensures !LocksPool(cfg, s, t, i, s') && !UsesCache(cfg, s, t, i, s')
  {
  }

  lemma NextAccounted(cfg: Config, s: Sys, t: nat, i: nat, s': Sys)
    requires cfg.stage == 3 && i < CLASSES && !Starved(cfg, s, t, i, s')
    requires Inv(cfg, s) && Next(cfg, s, s') && t in s.threads && OnlyBatches(s.threads[t].at)
    ensures Accounted(cfg, s, t, i, s') && t in s'.threads && OnlyBatches(s'.threads[t].at)
  {
    if ThreadStep(cfg, s, t, s') {
      assert ThreadOk(s, t);
      OwnStepAccounted(cfg, s, t, i, s');
    } else {
      if u :| ThreadStep(cfg, s, u, s') {
        StepKeeps(cfg, s, u, s');
        assert SamePlaces(s, s', t, i);
      }
      OthersAccounted(cfg, s, t, i, s');
    }
  }

  lemma {:induction false} AlwaysBatches(cfg: Config, run: seq<Sys>, t: nat, k: nat)
    requires cfg.stage == 3 && IsRun(cfg, run) && k < |run| && t in run[0].threads
    ensures t in run[k].threads && OnlyBatches(run[k].threads[t].at)
  {
    if k == 0 {
      assert run[0].threads[t] == IDLE_THREAD;
    } else {
      AlwaysBatches(cfg, run, t, k - 1);
      RunInv(cfg, run, k - 1);
      assert Follows(cfg, run, k - 1);
      NextBatches(cfg, run[k - 1], t, run[k]);
    }
  }

  lemma NextBatches(cfg: Config, s: Sys, t: nat, s': Sys)
    requires cfg.stage == 3 && Inv(cfg, s) && Next(cfg, s, s') && t in s.threads && OnlyBatches(s.threads[t].at)
    ensures t in s'.threads && OnlyBatches(s'.threads[t].at)
  {
    NextAccounted(cfg, s, t, if Starved(cfg, s, t, 0, s') then 1 else 0, s');
  }

  lemma FollowsAccounted(cfg: Config, run: seq<Sys>, t: nat, i: nat, k: nat)
    requires cfg.stage == 3 && i < CLASSES && IsRun(cfg, run) && t in run[0].threads && k + 1 < |run|
    requires !Starved(cfg, run[k], t, i, run[k + 1])
    ensures Accounted(cfg, run[k], t, i, run[k + 1])
  {
    RunInv(cfg, run, k);
    AlwaysBatches(cfg, run, t, k);
    assert Follows(cfg, run, k);
    NextAccounted(cfg, run[k], t, i, run[k + 1]);
  }

  /** Between any two states of a run, the acquisitions are paid for by uses of the cache. */
  lemma {:induction false} LocksArePaid(cfg: Config, run: seq<Sys>, t: nat, i: nat, j: nat, k: nat)
    requires cfg.stage == 3 && i < CLASSES && IsRun(cfg, run) && t in run[0].threads && j <= k < |run|
    requires Supplied(cfg, run, t, i, j, k)
    ensures 32 * Locks(cfg, run, t, i, j, k) <= Uses(cfg, run, t, i, j, k) + Reserve(run[k], t, i) - Reserve(run[j], t, i)
    decreases k
  {
    if k <= j {
    } else {
      LocksArePaid(cfg, run, t, i, j, k - 1);
      assert !Starved(cfg, run[k - 1], t, i, run[k - 1 + 1]);
      FollowsAccounted(cfg, run, t, i, k - 1);
    }
  }

  /** The amortised bound: while the system supplies t's refills, from the start of a run to any
      state in which t is between calls, N uses of t's cache acquire the pool's mutex at most
      1 + (N - 1) / 32 times, whatever the other threads do to the pool. */
  lemma RunLockBudget(cfg: Config, run: seq<Sys>, t: nat, i: nat, k: nat)
    requires cfg.stage == 3 && i < CLASSES && IsRun(cfg, run) && t in run[0].threads && k < |run|
    requires Supplied(cfg, run, t, i, 0, k) && t in run[k].threads && run[k].threads[t].at.Idle?
    ensures var n := Uses(cfg, run, t, i, 0, k);
            Locks(cfg, run, t, i, 0, k) <= if n == 0 then 0 else 1 + (n - 1) / 32
  {
    LocksArePaid(cfg, run, t, i, 0, k);
    assert At(run[0].sl, InCache(t, i)) == [] && run[0].threads[t] == IDLE_THREAD;
  }

  /** Two acquisitions of one pool by one thread are at least 32 operations apart: counting each
      refill's operation where it locks, at least 32 uses lie between. */
  lemma RunLocksAreApart(cfg: Config, run: seq<Sys>, t: nat, i: nat, j: nat, k: nat)
    requires cfg.stage == 3 && i < CLASSES && IsRun(cfg, run) && t in run[0].threads && j + 1 <= k && k + 1 < |run|
    requires LocksPool(cfg, run[j], t, i, run[j + 1]) && LocksPool(cfg, run[k], t, i, run[k + 1])
    requires Supplied(cfg, run, t, i, j, k)
    ensures 32 + (if run[j].threads[t].at.RefillWait? then 1 else 0)
              <= Uses(cfg, run, t, i, j + 1, k) + (if run[k].threads[t].at.RefillWait? then 1 else 0)
  {
    LocksArePaid(cfg, run, t, i, j + 1, k);
    AtAcquisition(cfg, run, t, i, j);
    AtAcquisition(cfg, run, t, i, k);
    assert 0 <= 32 * Locks(cfg, run, t, i, j + 1, k);
  }

  /** What is in reserve just before and just after an acquisition. */
  lemma AtAcquisition(cfg: Config, run: seq<Sys>, t: nat, i: nat, k: nat)
    requires cfg.stage == 3 && i < CLASSES && IsRun(cfg, run) && t in run[0].threads && k + 1 < |run|
    requires LocksPool(cfg, run[k], t, i, run[k + 1])
    ensures var refill := run[k].threads[t].at.RefillWait?;
            && Reserve(run[k], t, i) == (if refill then 1 else 0)
            && Reserve(run[k + 1], t, i) == 32 + if refill then 1 else 0
  {
    RunInv(cfg, run, k);
    AlwaysBatches(cfg, run, t, k);
    var s := run[k];
    assert ThreadOk(s, t) && CacheOk(s, t, s.threads[t], i);
  }
}
