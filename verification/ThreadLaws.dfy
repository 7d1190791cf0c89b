/** What every run of any number of threads keeps, in all three concurrency stages. */
module ThreadLaws {
  import opened SlotSystem
  import opened Threads
  import opened ThreadInvariant
  import opened ThreadProof
  import opened ThreadSlotProof
  import opened ThreadSlotSteps
  import opened ThreadHeapProof

  // ---- The invariant is inductive ------------------------------------------------------------

  /** Steps that only move control. */
  ghost predicate ControlAct(cfg: Config, s: Sys, t: nat, s': Sys) {
    || Acquire(cfg, s, t, s') || Unlock(s, t, s') || (exists n :: StartMalloc(s, t, n, s')) || Return(s, t, s')
    || (exists p :: StartFree(s, t, p, s')) || ReadTag(cfg, s, t, s') || FreeReturn(s, t, s')
    || (exists p, n :: StartRealloc(s, t, p, n, s')) || ReallocRoute(cfg, s, t, s')
  }

  /** Steps of the pooled path. */
  ghost predicate SlotAct(cfg: Config, s: Sys, t: nat, s': Sys) {
    || Dispatch(cfg, s, t, s') || RefillTake(s, t, s') || ExpandGranted(s, t, s')
    || ExpandRefused(cfg, s, t, s') || RefillFull(cfg, s, t, s') || Install(s, t, s')
    || PoolTake(cfg, s, t, s') || CachePush(s, t, s') || Detach(s, t, s')
    || SpliceBack(cfg, s, t, s') || PoolPush(cfg, s, t, s')
  }

  /** Critical sections of the general path, and the copy. */
  ghost predicate HeapAct(cfg: Config, s: Sys, t: nat, s': Sys) {
    || GeneralTake(cfg, s, t, s'.words, s') || GeneralRelease(cfg, s, t, s'.words, s')
    || Resize(cfg, s, t, s'.words, s') || Copy(s, t, s')
  }

  lemma StepActs(cfg: Config, s: Sys, t: nat, s': Sys)
    ensures ThreadStep(cfg, s, t, s') <==> ControlAct(cfg, s, t, s') || SlotAct(cfg, s, t, s') || HeapAct(cfg, s, t, s')
  {
  }

  lemma ControlStepKeeps(cfg: Config, s: Sys, t: nat, s': Sys)
    requires Inv(cfg, s) && ControlAct(cfg, s, t, s')
    ensures Inv(cfg, s') && Quiet(s, s', t)
  {
    if Acquire(cfg, s, t, s') {
      AcquireKeeps(cfg, s, t, s');
    } else if Unlock(s, t, s') {
      UnlockKeeps(cfg, s, t, s');
    } else if n :| StartMalloc(s, t, n, s') {
      StartMallocKeeps(cfg, s, t, n, s');
    } else if Return(s, t, s') {
      ReturnKeeps(cfg, s, t, s');
    } else if p :| StartFree(s, t, p, s') {
      StartFreeKeeps(cfg, s, t, p, s');
    } else if ReadTag(cfg, s, t, s') {
      ReadTagKeeps(cfg, s, t, s');
    } else if FreeReturn(s, t, s') {
      FreeReturnKeeps(cfg, s, t, s');
    } else if p, n :| StartRealloc(s, t, p, n, s') {
      StartReallocKeeps(cfg, s, t, p, n, s');
    } else {
      ReallocRouteKeeps(cfg, s, t, s');
    }
  }

  lemma SlotStepKeeps(cfg: Config, s: Sys, t: nat, s': Sys)
    requires Inv(cfg, s) && SlotAct(cfg, s, t, s')
    ensures Inv(cfg, s') && Quiet(s, s', t)
  {
    if Dispatch(cfg, s, t, s') {
      DispatchKeeps(cfg, s, t, s');
    } else if RefillTake(s, t, s') {
      RefillTakeKeeps(cfg, s, t, s');
    } else if ExpandGranted(s, t, s') {
      ExpandGrantedKeeps(cfg, s, t, s');
    } else if ExpandRefused(cfg, s, t, s') {
      ExpandRefusedKeeps(cfg, s, t, s');
    } else if RefillFull(cfg, s, t, s') {
      RefillFullKeeps(cfg, s, t, s');
    } else if Install(s, t, s') {
      InstallStepKeeps(cfg, s, t, s');
    } else if PoolTake(cfg, s, t, s') {
      PoolTakeKeeps(cfg, s, t, s');
    } else if CachePush(s, t, s') {
      CachePushKeeps(cfg, s, t, s');
    } else if Detach(s, t, s') {
      DetachStepKeeps(cfg, s, t, s');
    } else if SpliceBack(cfg, s, t, s') {
      SpliceBackKeeps(cfg, s, t, s');
    } else {
      PoolPushKeeps(cfg, s, t, s');
    }
  }

  lemma HeapStepKeeps(cfg: Config, s: Sys, t: nat, s': Sys)
    requires Inv(cfg, s) && HeapAct(cfg, s, t, s')
    ensures Inv(cfg, s') && Quiet(s, s', t)
  {
    if GeneralTake(cfg, s, t, s'.words, s') {
      GeneralTakeKeeps(cfg, s, t, s');
    } else if GeneralRelease(cfg, s, t, s'.words, s') {
      GeneralReleaseKeeps(cfg, s, t, s');
    } else if Resize(cfg, s, t, s'.words, s') {
      ResizeKeeps(cfg, s, t, s');
    } else {
      CopyKeeps(cfg, s, t, s');
    }
  }

  /** Every step of every thread keeps the invariant, and leaves alone every live pointer the
      thread does not own, every other thread, and every other thread's cache. */
  lemma StepKeeps(cfg: Config, s: Sys, t: nat, s': Sys)
    requires Inv(cfg, s) && ThreadStep(cfg, s, t, s')
    ensures Inv(cfg, s') && Quiet(s, s', t)
  {
    StepActs(cfg, s, t, s');
    if ControlAct(cfg, s, t, s') {
      ControlStepKeeps(cfg, s, t, s');
    } else if SlotAct(cfg, s, t, s') {
      SlotStepKeeps(cfg, s, t, s');
    } else {
      HeapStepKeeps(cfg, s, t, s');
    }
  }

  lemma NextKeeps(cfg: Config, s: Sys, s': Sys)
    requires Inv(cfg, s) && Next(cfg, s, s')
    ensures Inv(cfg, s')
  {
    if t :| ThreadStep(cfg, s, t, s') {
      StepKeeps(cfg, s, t, s');
    } else {
      var p, k, value :| ClientWrite(s, p, k, value, s');
      ClientWriteKeeps(cfg, s, p, k, value, s');
    }
  }

  lemma InitInv(cfg: Config, s: Sys)
    requires Init(cfg, s)
    ensures Inv(cfg, s)
  {
    InitMemory(cfg, s);
    forall t | t in s.threads ensures ThreadOk(s, t) {
      forall j ensures CacheOk(s, t, s.threads[t], j) {
      }
    }
  }

  lemma InitMemory(cfg: Config, s: Sys)
    requires Init(cfg, s)
    ensures MemoryOk(cfg, s)
  {
    assert forall p :: PlaceOk(s.sl, s.words, p);
  }

  /** Every state of every run satisfies the invariant. */
  lemma {:induction false} RunInv(cfg: Config, run: seq<Sys>, k: nat)
    requires IsRun(cfg, run) && k < |run|
    ensures Inv(cfg, run[k])
  {
    if k == 0 {
      InitInv(cfg, run[0]);
    } else {
      RunInv(cfg, run, k - 1);
      assert Follows(cfg, run, k - 1);
      NextKeeps(cfg, run[k - 1], run[k]);
    }
  }

  // ---- Steps that leave a call as it was -----------------------------------------------------

  /** The same call, as far as the client can tell. */
  ghost predicate SameCall(th: Thread, th': Thread) {
    && th'.ptr == th.ptr && th'.result == th.result && th'.source == th.source && th'.n == th.n
    && th'.data == th.data
    && IsFreeing(th'.at) == IsFreeing(th.at) && IsFreed(th'.at) == IsFreed(th.at)
    && !th.at.Idle? && !th'.at.Idle? && Touched(th) == {}
  }

  lemma LockActions(cfg: Config, s: Sys, t: nat, s': Sys)
    requires Acquire(cfg, s, t, s') || Unlock(s, t, s')
    requires RegsOk(s, s.threads[t])
    ensures SameCall(s.threads[t], s'.threads[t])
  {
  }

  lemma RefillActions(cfg: Config, s: Sys, t: nat, s': Sys)
    requires RefillTake(s, t, s') || ExpandGranted(s, t, s') || ExpandRefused(cfg, s, t, s')
             || RefillFull(cfg, s, t, s') || Install(s, t, s')
    ensures t in s.threads && t in s'.threads && s'.threads == s.threads[t := s'.threads[t]] && s'.held == s.held
    ensures SameCall(s.threads[t], s'.threads[t])
  {
    assert s.threads == s.threads[t := s.threads[t]];
  }

  lemma FlushActions(cfg: Config, s: Sys, t: nat, s': Sys)
    requires ReadTag(cfg, s, t, s') || Detach(s, t, s') || SpliceBack(cfg, s, t, s')
    ensures SameCall(s.threads[t], s'.threads[t])
  {
  }
}
