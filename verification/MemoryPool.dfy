/** Null-terminated singly linked chains of free slots, linked through the header word that
    holds the owner's address while a slot is live. */
module Chains {
  import opened Machine
  import opened FreeLists

  /** Slot k of the chain points at slot k + 1. */
  ghost predicate LinkOk(words: Words, chain: seq<int>, k: int)
    requires 0 <= k < |chain|
  {
    0 < chain[k] && chain[k] in words && words[chain[k]] == LinkTo(chain, k + 1)
  }

  ghost predicate Chained(words: Words, head: int, chain: seq<int>) {
    && head == LinkTo(chain, 0)
    && NoDuplicates(chain)
    && forall k {:trigger LinkOk(words, chain, k)} | 0 <= k < |chain| :: LinkOk(words, chain, k)
  }

  ghost function Last(chain: seq<int>): int {
    if chain == [] then 0 else chain[|chain| - 1]
  }

  lemma ChainedFrame(before: Words, after: Words, head: int, chain: seq<int>)
    requires Chained(before, head, chain)
    requires forall s | s in chain && s in before :: s in after && after[s] == before[s]
    ensures Chained(after, head, chain)
  {
    forall k | 0 <= k < |chain| ensures LinkOk(after, chain, k) {
      assert LinkOk(before, chain, k) && chain[k] in chain;
    }
  }

  lemma HeadFacts(words: Words, head: int, chain: seq<int>)
    requires Chained(words, head, chain)
    ensures chain == [] <==> head == 0
    ensures chain != [] ==> head == chain[0] && head in words && words[head] == LinkTo(chain, 1)
    ensures chain != [] ==> Chained(words, words[head], chain[1..]) && head !in chain[1..]
  {
    if chain != [] {
      assert LinkOk(words, chain, 0);
      forall k | 0 <= k < |chain[1..]| ensures LinkOk(words, chain[1..], k) {
        assert LinkOk(words, chain, k + 1);
      }
    }
  }

  lemma Push(words: Words, head: int, chain: seq<int>, slot: int)
    requires Chained(words, head, chain) && 0 < slot && slot in words && slot !in chain
    ensures Chained(words[slot := head], slot, [slot] + chain)
  {
    HeadFacts(words, head, chain);
    var longer, after := [slot] + chain, words[slot := head];
    forall k | 0 <= k < |longer| ensures LinkOk(after, longer, k) {
      if k > 0 {
        assert LinkOk(words, chain, k - 1) && chain[k - 1] in chain;
      }
    }
  }

  /** Pointing the last slot of one chain at the head of another makes one chain of both. */
  lemma Splice(words: Words, head: int, first: seq<int>, head': int, second: seq<int>)
    requires Chained(words, head, first) && Chained(words, head', second) && first != []
    requires forall s | s in first :: s !in second
    ensures Last(first) in words
    ensures Chained(words[Last(first) := head'], head, first + second)
  {
    var n := |first|;
    assert LinkOk(words, first, n - 1);
    var after := words[Last(first) := head'];
    assert forall i | 0 <= i < n :: first[i] in first;
    forall k | 0 <= k < |first + second| ensures LinkOk(after, first + second, k) {
      if k < n {
        assert LinkOk(words, first, k);
      } else {
        assert LinkOk(words, second, k - n) && second[k - n] in second;
        assert first[n - 1] in first;
      }
    }
  }

  /** Appending a slot at the tail. */
  lemma Append(words: Words, head: int, chain: seq<int>, slot: int)
    requires Chained(words, head, chain) && 0 < slot && slot in words && slot !in chain
    ensures var w := words[slot := 0];
            Chained(if chain == [] then w else w[Last(chain) := slot], if chain == [] then slot else head, chain + [slot])
  {
    var w := words[slot := 0];
    ChainedFrame(words, w, head, chain);
    assert Chained(w, slot, [slot]) by {
      assert LinkOk(w, [slot], 0);
    }
    if chain == [] {
      assert chain + [slot] == [slot];
    } else {
      Splice(w, head, chain, slot, [slot]);
    }
  }

  /** Clearing the link of slot n - 1 cuts a chain in two. */
  lemma Cut(words: Words, head: int, chain: seq<int>, n: int)
    requires Chained(words, head, chain) && 1 <= n <= |chain|
    ensures var after := words[chain[n - 1] := 0];
            && Chained(after, head, chain[..n])
            && Chained(after, LinkTo(chain, n), chain[n..])
  {
    var after := words[chain[n - 1] := 0];
    forall k | 0 <= k < n ensures LinkOk(after, chain[..n], k) {
      assert LinkOk(words, chain, k);
    }
    forall k | 0 <= k < |chain| - n ensures LinkOk(after, chain[n..], k) {
      assert LinkOk(words, chain, n + k);
    }
  }
}

/** Fixed-size slot pools. */
module MemoryPool {
  import opened Machine
  import opened FreeLists
  import opened Chains

  const SLOT_HEADER := 16
  const SLOTS_PER_ARENA := 256

  /** The whole slots of a region, in the order they are chained: the last one carved comes
      first. */
  ghost function Carved(base: int, size: int, total: int): seq<int>
    requires 0 < total
    decreases size
  {
    if size < total then [] else Carved(base + total, size - total, total) + [base]
  }

  /** expand: the chain and the system after asking for one more arena. */
  ghost function Expanded(chain: seq<int>, os: Os, total: int): (seq<int>, Os, bool)
    requires 0 < total
  {
    var (answer, os') := os.Ask(total * SLOTS_PER_ARENA);
    match answer
    case None => (chain, os', false)
    case Some(r) => (Carved(r.base, r.size, total) + chain, os', true)
  }

  /** Pool::allocate: the slot handed out (null when refused), the chain and the system. */
  ghost function Taken(chain: seq<int>, os: Os, total: int): (int, seq<int>, Os)
    requires 0 < total
  {
    if chain != [] then (chain[0], chain[1..], os)
    else
      var (chain', os', granted) := Expanded(chain, os, total);
      if granted && chain' != [] then (chain'[0], chain'[1..], os') else (0, chain', os')
  }

  /** What n successive allocations take, up to the first refusal. */
  ghost function TakenBatch(chain: seq<int>, os: Os, total: int, n: nat): (seq<int>, seq<int>, Os)
    requires 0 < total
    decreases n
  {
    if n == 0 then ([], chain, os)
    else
      var (slot, chain', os') := Taken(chain, os, total);
      if slot == 0 then ([], chain', os')
      else
        var (rest, chain'', os'') := TakenBatch(chain', os', total, n - 1);
        ([slot] + rest, chain'', os'')
  }

  /** While the chain holds n slots, a batch is its first n and asks the system nothing. */
  lemma {:induction false} BatchIsPrefix(chain: seq<int>, os: Os, total: int, n: nat)
    requires 0 < total && n <= |chain| && forall i | 0 <= i < |chain| :: 0 < chain[i]
    ensures TakenBatch(chain, os, total, n) == (chain[..n], chain[n..], os)
  {
    if n == 0 {
    } else {
      BatchIsPrefix(chain[1..], os, total, n - 1);
      assert chain[..n] == [chain[0]] + chain[1..][..n - 1];
      assert chain[n..] == chain[1..][n - 1..];
    }
  }

  /** A batch in the making: what is still to be taken completes it to `all`. */
  ghost predicate StillToTake(batch: seq<int>, chain: seq<int>, os: Os, total: int, n: nat, all: (seq<int>, seq<int>, Os))
    requires 0 < total
  {
    var (rest, chain', os') := TakenBatch(chain, os, total, n);
    (batch + rest, chain', os') == all
  }

  /** One turn of the batch loop: the slot joins the batch, or a refusal ends it. */
  lemma TakeOne(batch: seq<int>, chain: seq<int>, os: Os, total: int, n: nat, all: (seq<int>, seq<int>, Os),
                slot: int, chain': seq<int>, os': Os)
    requires 0 < total && 0 < n && StillToTake(batch, chain, os, total, n, all)
    requires (slot, chain', os') == Taken(chain, os, total)
    ensures slot == 0 ==> (batch, chain', os') == all
    ensures slot != 0 ==> StillToTake(batch + [slot], chain', os', total, n - 1, all)
  {
    if slot == 0 {
      assert batch + [] == batch;
    } else {
      var rest := TakenBatch(chain', os', total, n - 1).0;
      assert batch + ([slot] + rest) == batch + [slot] + rest;
    }
  }

  // ---- Slots -----------------------------------------------------------------------------

  ghost predicate SlotsApart(total: int, x: int, y: int) {
    x == y || x + total <= y || y + total <= x
  }

  /** Slots are aligned, wholly mapped and disjoint. */
  ghost predicate SlotsOk(mapped: set<int>, slots: set<int>, total: int) {
    && (forall s | s in slots :: 0 < s && s % ALIGNMENT == 0 && WordsOf(Region(s, total)) <= mapped)
    && (forall x, y {:trigger SlotsApart(total, x, y)} | x in slots && y in slots :: SlotsApart(total, x, y))
  }

  /** Carving covers a region with disjoint aligned slots. */
  lemma {:induction false} CarvedSlots(base: int, size: int, total: int)
    requires 0 < total && base % ALIGNMENT == 0 && total % ALIGNMENT == 0
    ensures NoDuplicates(Carved(base, size, total))
    ensures forall s | s in Carved(base, size, total) ::
              base <= s && s + total <= base + size && s % ALIGNMENT == 0
    ensures forall x, y | x in Carved(base, size, total) && y in Carved(base, size, total) :: SlotsApart(total, x, y)
    decreases size
  {
    if size < total {
    } else {
      CarvedSlots(base + total, size - total, total);
      var rest := Carved(base + total, size - total, total);
      assert forall i | 0 <= i < |rest| :: rest[i] in rest;
    }
  }

  /** As many whole slots as fit, the last one carved first in the chain. */
  lemma {:induction false} CarvedAt(base: int, size: int, total: int, k: nat)
    requires 0 < total && 0 <= size
    ensures var c := Carved(base, size, total);
            && |c| * total <= size < |c| * total + total
            && (k < |c| ==> c[k] == base + (|c| - 1 - k) * total)
    decreases size
  {
    if size < total {
    } else {
      CarvedAt(base + total, size - total, total, k);
      var rest := Carved(base + total, size - total, total);
      assert (|rest| + 1) * total == |rest| * total + total;
      assert (|rest| - k) * total == (|rest| - 1 - k) * total + total;
    }
  }

  /** A granted arena holds at least as many slots as were asked for. */
  lemma {:induction false} CarvedCount(base: int, size: int, total: int, n: nat)
    requires 0 < total && n * total <= size
    ensures |Carved(base, size, total)| >= n
    decreases n
  {
    if n == 0 {
    } else {
      assert n * total == (n - 1) * total + total && 0 <= (n - 1) * total;
      CarvedCount(base + total, size - total, total, n - 1);
    }
  }

  /** Stepping through size / total slots visits exactly the whole ones. */
  lemma WholeSlots(size: int, total: int, i: nat)
    requires 0 < total && 0 <= size
    ensures i < size / total <==> i * total + total <= size
    ensures (i + 1) * total == i * total + total
  {
    var q := size / total;
    assert q * total <= size < q * total + total;
    if i < q {
      assert (q - i - 1) * total >= 0;
    } else {
      assert (i - q) * total >= 0;
    }
  }

  /** A fresh arena's slots join the others. */
  lemma MoreSlots(mapped: set<int>, mapped': set<int>, slots: set<int>, total: int, r: Region)
    requires SlotsOk(mapped, slots, total) && mapped' == mapped + WordsOf(r)
    requires 0 < total && total % ALIGNMENT == 0 && 0 < r.base && r.base % ALIGNMENT == 0
    requires WordsOf(r) !! mapped
    ensures var added := set s | s in Carved(r.base, r.size, total);
            && SlotsOk(mapped', slots + added, total)
            && forall s | s in added :: WordsOf(Region(s, total)) !! mapped && s !in slots && s in mapped' && s !in mapped
  {
    CarvedSlots(r.base, r.size, total);
    var added := set s | s in Carved(r.base, r.size, total);
    forall s | s in added
      ensures 0 < s && s % ALIGNMENT == 0 && WordsOf(Region(s, total)) <= WordsOf(r) && s in WordsOf(Region(s, total))
    {
      InRegion(Region(s, total), s);
    }
    forall x, y | x in slots && y in added ensures SlotsApart(total, x, y) && x != y {
      RegionsApart(Region(x, total), Region(y, total));
      InRegion(Region(x, total), x);
    }
    forall x, y | x in slots + added && y in slots + added ensures SlotsApart(total, x, y) {
      if x in slots && y in added {
      } else if y in slots && x in added {
        assert SlotsApart(total, y, x);
      }
    }
  }

  // ---- The pool --------------------------------------------------------------------------

  class Pool {
    const mem: Memory
    /** The address of this pool, which tags its live slots. */
    const self: int
    const payload: int
    const total: int
    var freeHead: int
    var arenas: seq<Region>
    ghost var chain: seq<int>
    ghost var slots: set<int>

    ghost predicate Valid()
      reads this, mem
    {
      && 0 < payload && payload % ALIGNMENT == 0 && total == SLOT_HEADER + payload
      && Chained(mem.words, freeHead, chain)
      && SlotsOk(mem.words.Keys, slots, total)
      && forall s | s in chain :: s in slots
    }

    constructor (mem: Memory, self: int, payload: int)
      requires 0 < payload && payload % ALIGNMENT == 0
      ensures this.mem == mem && this.self == self && this.payload == payload
      ensures Valid() && chain == [] && slots == {}
    {
      this.mem := mem;
      this.self := self;
      this.payload := payload;
      total := SLOT_HEADER + payload;
      freeHead := 0;
      arenas := [];
      chain := [];
      slots := {};
    }

    /** The pool gained exactly the slots of newly mapped memory, and wrote no other word than
        the headers of `touched` slots. */
    twostate predicate Gained(touched: seq<int>)
      reads this, mem
    {
      && old(slots) <= slots
      && (forall s | s in slots && s !in old(slots) :: WordsOf(Region(s, total)) !! old(mem.words.Keys) && s !in old(mem.words))
      && old(mem.words.Keys) <= mem.words.Keys
      && forall w | w in old(mem.words) && w !in touched :: mem.words[w] == old(mem.words)[w]
    }

    /** Carves the whole slots of a mapped region and chains each in front. */
    method CarveSlots(r: Region)
      requires 0 < total && 0 <= r.size && Chained(mem.words, freeHead, chain)
      requires NoDuplicates(Carved(r.base, r.size, total) + chain)
      requires forall s | s in Carved(r.base, r.size, total) :: 0 < s && s in mem.words
      modifies this`freeHead, this`chain, mem`words
      ensures Chained(mem.words, freeHead, chain) && chain == Carved(r.base, r.size, total) + old(chain)
      ensures mem.words.Keys == old(mem.words.Keys)
      ensures forall w | w in mem.words && w !in Carved(r.base, r.size, total) :: mem.words[w] == old(mem.words)[w]
    {
      ghost var carved := Carved(r.base, r.size, total);
      ghost var all, keys := carved + chain, mem.words.Keys;
      var slotCount := r.size / total;
      var i := 0;
      while i < slotCount
        invariant 0 <= i && 0 <= r.size - i * total
        invariant mem.words.Keys == keys && Chained(mem.words, freeHead, chain)
        invariant Carved(r.base + i * total, r.size - i * total, total) <= carved
        invariant Carved(r.base + i * total, r.size - i * total, total) + chain == all
        invariant forall w | w in mem.words && w !in carved :: mem.words[w] == old(mem.words)[w]
      {
        WholeSlots(r.size, total, i);
        var slot := r.base + i * total;
        ghost var rest := Carved(slot + total, r.size - i * total - total, total);
        assert Carved(slot, r.size - i * total, total) == rest + [slot];
        PickedOnce(rest, slot, chain);
        assert (rest + [slot])[|rest|] == slot && slot in carved;
        Push(mem.words, freeHead, chain, slot);
        mem.Store(slot, freeHead);
        freeHead := slot;
        chain := [slot] + chain;
        i := i + 1;
      }
      WholeSlots(r.size, total, i);
    }

    /** Asks for one more arena and chains its slots in front. */
    method Expand() returns (granted: bool)
      requires Valid()
      modifies this, mem
      ensures Valid() && Gained([])
      ensures (chain, mem.System(), granted) == Expanded(old(chain), old(mem.System()), total)
      ensures forall s :: s in chain <==> s in old(chain) || (s in slots && s !in old(slots))
      ensures granted ==> chain != []
    {
      ghost var before, os := mem.words, mem.System();
      AskGrants(os, total * SLOTS_PER_ARENA);
      var region := mem.Acquire(total * SLOTS_PER_ARENA);
      ChainedFrame(before, mem.words, freeHead, chain);
      if region.None? {
        return false;
      }
      var r := region.value;
      arenas := arenas + [r];
      ghost var carved := Carved(r.base, r.size, total);
      ghost var added := set s | s in carved;
      CarvedSlots(r.base, r.size, total);
      MoreSlots(before.Keys, mem.words.Keys, slots, total, r);
      assert forall s | s in carved :: s in added;
      DistinctConcat(carved, chain);
      CarveSlots(r);
      slots := slots + added;
      granted := true;
    }

    /** Takes the first free slot off the chain, asking for an arena when there is none. */
    method PopFree() returns (slot: int)
      requires Valid()
      modifies this, mem
      ensures Valid() && Gained([])
      ensures (slot, chain, mem.System()) == Taken(old(chain), old(mem.System()), total)
      ensures slot != 0 ==> slot in slots && slot !in chain && 0 < slot && slot in mem.words
      ensures forall s :: s in chain || (slot != 0 && s == slot)
                <==> s in old(chain) || (s in slots && s !in old(slots))
    {
      HeadFacts(mem.words, freeHead, chain);
      if freeHead == 0 {
        var granted := Expand();
        if !granted {
          return 0;
        }
      }
      HeadFacts(mem.words, freeHead, chain);
      slot := freeHead;
      assert slot in chain && chain == [slot] + chain[1..];
      SlotMapped(mem.words.Keys, slots, total, slot);
      freeHead := mem.words[slot];
      chain := chain[1..];
    }

    /** Takes the first free slot and tags it with this pool's address. */
    method Allocate() returns (ptr: int)
      requires Valid()
      modifies this, mem
      ensures Valid() && Gained(old(chain))
      ensures var (slot, chain', os') := Taken(old(chain), old(mem.System()), total);
              && chain == chain' && mem.System() == os'
              && ptr == (if slot == 0 then 0 else slot + SLOT_HEADER)
              && (slot != 0 ==> slot in slots && slot !in chain && slot in mem.words && mem.words[slot] == self)
    {
      var slot := PopFree();
      if slot == 0 {
        return 0;
      }
      ChainedFrame(mem.words, mem.words[slot := self], freeHead, chain);
      mem.Store(slot, self);
      return slot + SLOT_HEADER;
    }

    /** Links a slot at the tail of a batch. */
    method AppendSlot(head: int, tail: int, ghost batch: seq<int>, slot: int) returns (head': int)
      requires Valid() && Chained(mem.words, head, batch) && tail == Last(batch)
      requires 0 < slot && slot in mem.words && slot !in batch && slot !in chain
      requires forall s | s in batch :: s !in chain
      modifies mem`words
      ensures Valid() && Chained(mem.words, head', batch + [slot]) && Last(batch + [slot]) == slot
      ensures mem.words.Keys == old(mem.words.Keys)
      ensures forall w | w in mem.words && w != slot && w !in batch :: mem.words[w] == old(mem.words)[w]
    {
      Append(mem.words, head, batch, slot);
      HeadFacts(mem.words, head, batch);
      ghost var before := mem.words;
      mem.Store(slot, 0);
      head' := head;
      if tail == 0 {
        assert batch != [] ==> LinkOk(before, batch, |batch| - 1);
        head' := slot;
      } else {
        assert tail in batch && LinkOk(before, batch, |batch| - 1);
        mem.Store(tail, slot);
      }
      assert forall s | s in chain :: s != slot && s !in batch;
      ChainedFrame(before, mem.words, freeHead, chain);
    }

    /** Returns a live slot to the front of the chain. */
    method Deallocate(ptr: int)
      requires Valid() && ptr - SLOT_HEADER in slots && ptr - SLOT_HEADER !in chain
      modifies this`freeHead, this`chain, mem`words
      ensures Valid() && chain == [ptr - SLOT_HEADER] + old(chain)
      ensures mem.words.Keys == old(mem.words.Keys)
      ensures forall w | w in mem.words && w != ptr - SLOT_HEADER :: mem.words[w] == old(mem.words)[w]
    {
      var slot := ptr - SLOT_HEADER;
      SlotMapped(mem.words.Keys, slots, total, slot);
      Push(mem.words, freeHead, chain, slot);
      mem.Store(slot, freeHead);
      freeHead := slot;
      chain := [slot] + chain;
    }

    /** Pops up to maxCount slots as one null-terminated chain, still in free format, asking
        for arenas as needed and stopping early when refused. */
    method AllocateBatch(maxCount: nat) returns (head: int, tail: int, count: nat, ghost batch: seq<int>)
      requires Valid()
      modifies this, mem
      ensures Valid() && Gained(old(chain))
      ensures (batch, chain, mem.System()) == TakenBatch(old(chain), old(mem.System()), total, maxCount)
      ensures Chained(mem.words, head, batch) && tail == Last(batch) && count == |batch| <= maxCount
      ensures forall s | s in batch :: s in slots && s !in chain
      ensures forall s :: s in chain || s in batch <==> s in old(chain) || (s in slots && s !in old(slots))
    {
      head, tail, count, batch := 0, 0, 0, [];
      ghost var all := TakenBatch(chain, mem.System(), total, maxCount);
      assert [] + all.0 == all.0;
      while count < maxCount
        invariant Valid() && Gained(old(chain)) && count == |batch| <= maxCount
        invariant Chained(mem.words, head, batch) && tail == Last(batch)
        invariant forall s | s in batch :: s in slots && s !in chain
        invariant forall s :: s in chain || s in batch <==> s in old(chain) || (s in slots && s !in old(slots))
        invariant StillToTake(batch, chain, mem.System(), total, maxCount - count, all)
      {
        ghost var before, chain0, os0 := mem.words, chain, mem.System();
        var slot := PopFree();
        ChainedFrame(before, mem.words, head, batch);
        TakeOne(batch, chain0, os0, total, maxCount - count, all, slot, chain, mem.System());
        if slot == 0 {
          return;
        }
        head := AppendSlot(head, tail, batch, slot);
        tail := slot;
        batch := batch + [slot];
        count := count + 1;
      }
      assert batch + [] == batch;
    }

    /** Splices a whole chain of free slots back in front, with one write. */
    method DeallocateBatch(chainHead: int, chainTail: int, ghost batch: seq<int>)
      requires Valid() && Chained(mem.words, chainHead, batch) && batch != [] && chainTail == Last(batch)
      requires forall s | s in batch :: s in slots && s !in chain
      modifies this`freeHead, this`chain, mem`words
      ensures Valid() && chain == batch + old(chain)
      ensures mem.words.Keys == old(mem.words.Keys)
      ensures forall w | w in mem.words && w != chainTail :: mem.words[w] == old(mem.words)[w]
    {
      Splice(mem.words, chainHead, batch, freeHead, chain);
      mem.Store(chainTail, freeHead);
      freeHead := chainHead;
      chain := batch + chain;
    }
  }

  lemma SlotMapped(mapped: set<int>, slots: set<int>, total: int, s: int)
    requires SlotsOk(mapped, slots, total) && s in slots && 0 < total
    ensures 0 < s && s in mapped
  {
    InRegion(Region(s, total), s);
  }

  /** A granted arena's slots, and at least as many as were asked for. */
  lemma GrantedSlots(os: Os, total: int)
    requires 0 < total && total % ALIGNMENT == 0 && os.Ask(total * 256).0.Some?
    ensures var r := os.Ask(total * 256).0.value;
            && |Carved(r.base, r.size, total)| >= 256
            && forall i | 0 <= i < |Carved(r.base, r.size, total)| :: 0 < Carved(r.base, r.size, total)[i]
  {
    AskGrants(os, total * 256);
    var r := os.Ask(total * 256).0.value;
    CarvedCount(r.base, r.size, total, 256);
    CarvedSlots(r.base, r.size, total);
    var carved := Carved(r.base, r.size, total);
    assert forall i | 0 <= i < |carved| :: carved[i] in carved;
  }

  /** A refused batch is the whole chain. */
  lemma {:induction false} BatchWhenRefused(chain: seq<int>, os: Os, total: int, n: nat)
    requires 0 < total && |chain| < n && forall i | 0 <= i < |chain| :: 0 < chain[i]
    requires os.Ask(total * 256).0.None?
    ensures TakenBatch(chain, os, total, n) == (chain, [], os.Ask(total * 256).1)
  {
    if chain == [] {
    } else {
      BatchWhenRefused(chain[1..], os, total, n - 1);
      assert [chain[0]] + chain[1..] == chain;
    }
  }

  /** A batch that was granted an arena leaves more slots than there were. */
  lemma {:induction false} BatchWhenGranted(chain: seq<int>, os: Os, total: int, n: nat)
    requires 0 < total && total % ALIGNMENT == 0 && |chain| < n && forall i | 0 <= i < |chain| :: 0 < chain[i]
    requires os.Ask(total * 256).0.Some?
    ensures var (batch, chain', os') := TakenBatch(chain, os, total, n); |chain| < |batch + chain'|
  {
    if chain == [] {
      GrantedSlots(os, total);
    } else {
      BatchWhenGranted(chain[1..], os, total, n - 1);
    }
  }

  /** Splicing a batch straight back restores the chain exactly when no arena was granted: when
      the chain held enough, or when the system refused. */
  lemma BatchRoundTrip(chain: seq<int>, os: Os, total: int, n: nat)
    requires 0 < total && total % ALIGNMENT == 0 && forall i | 0 <= i < |chain| :: 0 < chain[i]
    ensures var (batch, chain', os') := TakenBatch(chain, os, total, n);
            && (batch + chain' == chain <==> n <= |chain| || os.Ask(total * 256).0.None?)
            && (n <= |chain| ==> os' == os)
  {
    if n <= |chain| {
      BatchIsPrefix(chain, os, total, n);
    } else if os.Ask(total * 256).0.None? {
      BatchWhenRefused(chain, os, total, n);
    } else {
      BatchWhenGranted(chain, os, total, n);
    }
  }

  lemma PickedOnce(rest: seq<int>, slot: int, chain: seq<int>)
    requires NoDuplicates(rest + [slot] + chain)
    ensures slot !in chain && rest + ([slot] + chain) == rest + [slot] + chain
  {
    var all := rest + [slot] + chain;
    assert all[|rest|] == slot && forall k | 0 <= k < |chain| :: all[|rest| + 1 + k] == chain[k];
  }

  lemma DistinctConcat(s: seq<int>, t: seq<int>)
    requires NoDuplicates(s) && NoDuplicates(t) && forall x | x in s :: x !in t
    ensures NoDuplicates(s + t)
  {
    assert forall i | 0 <= i < |s| :: s[i] in s;
  }
}
