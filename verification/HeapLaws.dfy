/** What the general path promises, proved of the operations that its methods carry out. */
module HeapLaws {
  import opened Machine
  import opened BlockTags
  import opened FreeLists
  import opened HeapModel

  // ---- Freeing is merging maximal runs ---------------------------------------------------

  /** An arena seen as a plain list, low addresses first. */
  datatype Entry = Entry(size: int, free: bool)

  ghost function LayoutFrom(blocks: Blocks, a: int, end: int): seq<Entry>
    decreases end - a
  {
    if a < end && a in blocks && 0 <= blocks[a].size then
      [Entry(blocks[a].size, blocks[a].free)] + LayoutFrom(blocks, Past(a, blocks[a]), end)
    else []
  }

  ghost function Layout(h: Heap, i: int): seq<Entry>
    requires 0 <= i < |h.arenas|
  {
    LayoutFrom(h.blocks, h.arenas[i].base, h.arenas[i].End())
  }

  /** Puts an entry in front, merging it with a free entry already there. */
  ghost function Push(e: Entry, rest: seq<Entry>): seq<Entry> {
    if rest != [] && e.free && rest[0].free
    then [Entry(e.size + OVERHEAD + rest[0].size, true)] + rest[1..]
    else [e] + rest
  }

  /** The list with every maximal run of free entries merged into one. */
  ghost function Coalesce(l: seq<Entry>): seq<Entry> {
    if l == [] then [] else Push(l[0], Coalesce(l[1..]))
  }

  ghost predicate NoAdjacentFree(l: seq<Entry>) {
    forall i | 0 <= i < |l| - 1 :: !(l[i].free && l[i + 1].free)
  }

  ghost function Bytes(l: seq<Entry>): int {
    if l == [] then 0 else l[0].size + OVERHEAD + Bytes(l[1..])
  }

  ghost function LiveSizes(l: seq<Entry>): seq<int> {
    if l == [] then [] else (if l[0].free then [] else [l[0].size]) + LiveSizes(l[1..])
  }

  /** One entry more: still no adjacent free pair, and neither bytes nor live blocks are lost. */
  lemma PushMeans(e: Entry, rest: seq<Entry>)
    requires NoAdjacentFree(rest)
    ensures NoAdjacentFree(Push(e, rest))
    ensures Bytes(Push(e, rest)) == e.size + OVERHEAD + Bytes(rest)
    ensures LiveSizes(Push(e, rest)) == (if e.free then [] else [e.size]) + LiveSizes(rest)
  {
    assert ([e] + rest)[1..] == rest;
    if rest != [] && e.free && rest[0].free {
      var merged := Entry(e.size + OVERHEAD + rest[0].size, true);
      assert ([merged] + rest[1..])[1..] == rest[1..];
      forall i | 0 <= i < |Push(e, rest)| - 1 ensures !(Push(e, rest)[i].free && Push(e, rest)[i + 1].free) {
        assert !(rest[i].free && rest[i + 1].free);
      }
    }
  }

  /** Coalescing leaves no adjacent free pair, keeps every byte, and keeps the live blocks in
      order. */
  lemma {:induction false} CoalesceMeans(l: seq<Entry>)
    ensures NoAdjacentFree(Coalesce(l))
    ensures Bytes(Coalesce(l)) == Bytes(l)
    ensures LiveSizes(Coalesce(l)) == LiveSizes(l)
  {
    if l == [] {
    } else {
      CoalesceMeans(l[1..]);
      PushMeans(l[0], Coalesce(l[1..]));
    }
  }

  /** A tiling with no adjacent free blocks is already coalesced. */
  lemma {:induction false} AlreadyCoalesced(h: Heap, a: int, end: int)
    requires Tiled(h.arenas, h.blocks) && NoFreeNeighbours(h.blocks)
    requires a in h.blocks && h.blocks[a].arena < |h.arenas| && end == h.arenas[h.blocks[a].arena].End()
    ensures Coalesce(LayoutFrom(h.blocks, a, end)) == LayoutFrom(h.blocks, a, end)
    decreases end - a
  {
    assert BlockOk(h.arenas, h.blocks, a);
    var next := Past(a, h.blocks[a]);
    var rest := LayoutFrom(h.blocks, next, end);
    assert LayoutFrom(h.blocks, a, end)[1..] == rest;
    if end <= next {
    } else {
      assert BlockOk(h.arenas, h.blocks, next) && Adjacent(h.blocks, a, next);
      AlreadyCoalesced(h, next, end);
    }
  }

  /** Blocks past the joined pair are laid out as before. */
  lemma {:induction false} JoinedTail(arenas: seq<Arena>, blocks: Blocks, a: int, r: int, x: int, end: int)
    requires Tiled(arenas, blocks) && Adjacent(blocks, a, r) && r < x
    ensures LayoutFrom(Joined(blocks, a, r), x, end) == LayoutFrom(blocks, x, end)
    decreases end - x
  {
    assert BlockOk(arenas, blocks, a);
    if x < end && x in blocks && 0 <= blocks[x].size {
      JoinedTail(arenas, blocks, a, r, Past(x, blocks[x]), end);
    }
  }

  /** Joining two adjacent free blocks does not change the coalesced layout. */
  lemma {:induction false} JoinedCoalesces(arenas: seq<Arena>, blocks: Blocks, a: int, r: int, x: int, end: int)
    requires Tiled(arenas, blocks) && Adjacent(blocks, a, r) && blocks[a].free && blocks[r].free
    requires x in blocks && x != r && blocks[x].arena < |arenas| && end == arenas[blocks[x].arena].End()
    ensures Coalesce(LayoutFrom(Joined(blocks, a, r), x, end)) == Coalesce(LayoutFrom(blocks, x, end))
    decreases end - x
  {
    assert BlockOk(arenas, blocks, x) && BlockOk(arenas, blocks, a) && BlockOk(arenas, blocks, r);
    var joined := Joined(blocks, a, r);
    var next := Past(x, blocks[x]);
    if x == a {
      var past := Past(r, blocks[r]);
      JoinedTail(arenas, blocks, a, r, past, end);
      var tail := LayoutFrom(blocks, past, end);
      assert LayoutFrom(blocks, a, end)[1..] == LayoutFrom(blocks, r, end);
      assert LayoutFrom(blocks, r, end)[1..] == tail;
      assert LayoutFrom(joined, a, end)[1..] == tail;
    } else {
      assert LayoutFrom(blocks, x, end)[1..] == LayoutFrom(blocks, next, end);
      assert LayoutFrom(joined, x, end)[1..] == LayoutFrom(joined, next, end);
      if next < end {
        if next == r {
          LeftIsUnique(arenas, blocks, x, a, r);
        }
        JoinedCoalesces(arenas, blocks, a, r, next, end);
      }
    }
  }

  lemma LayoutCoalesced(h: Heap, i: int)
    requires Tiled(h.arenas, h.blocks) && NoFreeNeighbours(h.blocks)
    requires 0 <= i < |h.arenas| && 0 < h.arenas[i].used
    ensures Coalesce(Layout(h, i)) == Layout(h, i)
  {
    AlreadyCoalesced(h, h.arenas[i].base, h.arenas[i].End());
  }

  lemma JoinKeepsCoalesced(h: Heap, a: int, r: int, i: int)
    requires Tiled(h.arenas, h.blocks) && Adjacent(h.blocks, a, r) && h.blocks[a].free && h.blocks[r].free
    requires 0 <= i < |h.arenas| && 0 < h.arenas[i].used
    ensures Coalesce(LayoutFrom(Joined(h.blocks, a, r), h.arenas[i].base, h.arenas[i].End())) == Coalesce(Layout(h, i))
  {
    assert BlockOk(h.arenas, h.blocks, a);
    JoinedCoalesces(h.arenas, h.blocks, a, r, h.arenas[i].base, h.arenas[i].End());
  }

  /** my_free refines the list operation "mark the block free and merge every maximal free
      run", in every arena. */
  lemma ReleaseCoalesces(h: Heap, a: int, i: int)
    requires Valid(h) && a in h.blocks && !h.blocks[a].free && 0 <= i < |h.arenas|
    ensures h.blocks[a].arena < |h.arenas|
    ensures Release(h, a).arenas == h.arenas
    ensures Layout(Release(h, a), i) == Coalesce(Layout(Mark(h, a, true), i))
  {
    ReleaseRightKeeps(h, a);
    ReleaseValid(h, a);
    var marked := Mark(h, a, true);
    var half := ReleaseRight(h, a);
    var freed := Release(h, a);
    MarkedTiled(h.arenas, h.blocks, a, true);
    NeighbourFacts(marked, a);
    if half != marked {
      JoinKeepsCoalesced(marked, a, RightOf(marked, a).value, i);
    }
    NeighbourFacts(half, a);
    var left := LeftOf(half, a);
    if IsFreeBlock(half, left) {
      JoinKeepsCoalesced(half, left.value, a, i);
    }
    LayoutCoalesced(freed, i);
  }

  // ---- Allocation: first fit, complete, and disjoint from everything live ------------------

  /** Block a of h is live and unchanged in h'. */
  ghost predicate StillLive(h: Heap, h': Heap, a: int) {
    a in h.blocks && a in h'.blocks && h'.blocks[a] == h.blocks[a]
  }

  lemma ListedBlocks(h: Heap)
    requires Valid(h)
    ensures forall i | 0 <= i < |h.list| :: h.list[i] in h.blocks && h.list[i] != 0
  {
    forall i | 0 <= i < |h.list| ensures h.list[i] in h.blocks && h.list[i] != 0 {
      assert h.list[i] in h.list && BlockOk(h.arenas, h.blocks, h.list[i]);
    }
  }

  /** The arena just made room in is ready for carving. */
  lemma WithRoomRoomy(h: Heap, os: Os, arenaSize: int, size: int)
    requires Valid(h) && 0 <= size && MappedBy(h, os)
    ensures var (h', os', found) := WithRoom(h, os, arenaSize, size);
            && h'.blocks == h.blocks && h'.list == h.list
            && (found ==> Roomy(h', size))
            && (!found ==> h' == h && !HasRoom(h, size) && os.Ask(RequestSize(OVERHEAD + size, arenaSize)).0.None?)
  {
    var request := RequestSize(OVERHEAD + size, arenaSize);
    if !HasRoom(h, size) && os.Ask(request).0.Some? {
      AskGrants(os, request);
      OpenRoomy(h, os, size, os.Ask(request).0.value);
    }
  }

  /** A heap with an arena just opened in fresh memory is ready for carving. */
  lemma OpenRoomy(h: Heap, os: Os, size: int, r: Region)
    requires Valid(h) && MappedBy(h, os) && 0 <= size && OVERHEAD + size <= r.size
    requires 0 < r.base && r.base % ALIGNMENT == 0 && WordsOf(r) !! os.mapped
    ensures Roomy(OpenArena(h, r), size)
  {
    var grown := OpenArena(h, r);
    RegionIsFresh(os.mapped, h, r);
    OpenTiled(h, r);
    forall i | 0 <= i < |grown.arenas| ensures ArenaAligned(grown.arenas[i]) {
      assert i < |h.arenas| ==> ArenaAligned(h.arenas[i]);
    }
    assert grown.arenas[..|grown.arenas| - 1] == h.arenas;
  }

  /** Every arena lies in memory the system has mapped. */
  ghost predicate MappedBy(h: Heap, os: Os) {
    forall i | 0 <= i < |h.arenas| :: WordsOf(Region(h.arenas[i].base, h.arenas[i].size)) <= os.mapped
  }

  /** What a caller gets: an aligned payload of at least `size` and less than 48 more
      bytes, in a block that was not live and is disjoint from every block that was; all of
      those still are live, unchanged, and nothing else is. */
  ghost predicate Handed(h: Heap, h': Heap, ptr: int, size: int) {
    var a := ptr - HEADER;
    && IsLive(h', a) && !IsLive(h, a) && ptr % ALIGNMENT == 0
    && size <= h'.blocks[a].size < size + 48
    && (forall x | IsLive(h, x) :: StillLive(h, h', x))
    && (forall x | IsLive(h', x) && x != a :: StillLive(h, h', x))
    && (forall x | IsLive(h, x) :: Past(x, h.blocks[x]) <= a || Past(a, h'.blocks[a]) <= x)
  }

  lemma HandedApart(h: Heap, h': Heap, a: int, size: int)
    requires Valid(h') && IsLive(h', a) && !IsLive(h, a)
    requires size <= h'.blocks[a].size < size + 48
    requires forall x | IsLive(h, x) :: StillLive(h, h', x)
    requires forall x | IsLive(h', x) && x != a :: StillLive(h, h', x)
    ensures Handed(h, h', a + HEADER, size)
  {
    assert BlockAligned(h'.blocks, a);
    forall x | IsLive(h, x) ensures Past(x, h.blocks[x]) <= a || Past(a, h'.blocks[a]) <= x {
      assert StillLive(h, h', x);
      Disjoint(h'.arenas, h'.blocks, x, a);
    }
  }

  lemma ReuseHanded(h: Heap, a: int, size: int)
    requires Valid(h) && a in h.list
    requires LINKS <= size <= h.blocks[a].size && size % ALIGNMENT == 0
    ensures Valid(Reuse(h, a, size)) && Handed(h, Reuse(h, a, size), a + HEADER, size)
  {
    ReuseValid(h, a, size);
    ReuseBlocks(h, a, size);
    HandedApart(h, Reuse(h, a, size), a, size);
  }

  /** What is left over is listed as a block of its own exactly when it has at least 48 bytes: a
      header, two links and a footer. */
  lemma ReuseSplits(h: Heap, a: int, size: int)
    requires Valid(h) && a in h.list && LINKS <= size <= h.blocks[a].size && size % ALIGNMENT == 0
    ensures var left, h' := h.blocks[a].size - size, Reuse(h, a, size);
            && a in h'.blocks && a !in h'.list
            && h'.blocks[a].size == (if left >= 48 then size else h.blocks[a].size)
            && (if left >= 48 then
                  var rest := a + 32 + size;
                  rest in h'.blocks && h'.blocks[rest].size == left - 32 && rest in h'.list && |h'.list| == |h.list|
                else |h'.list| == |h.list| - 1)
  {
    WithoutMembers(h.list, a);
    assert |multiset(h.list)| == |multiset(Without(h.list, a)) + multiset{a}|;
  }

  lemma CarveHanded(before: Heap, h: Heap, size: int)
    requires Roomy(h, size) && LINKS <= size && size % ALIGNMENT == 0 && before.blocks == h.blocks
    ensures Valid(Carve(h, size))
    ensures Handed(before, Carve(h, size), h.arenas[|h.arenas| - 1].End() + HEADER, size)
  {
    CarveValid(h, size);
    HandedApart(before, Carve(h, size), h.arenas[|h.arenas| - 1].End(), size);
  }

  /** No listed block fits, the last arena lacks room for the block with its header and footer, and
      the system refuses that many bytes, or an arena of the usual size if that is more. */
  ghost predicate NoMemory(h: Heap, os: Os, arenaSize: int, size: int)
    requires 0 <= size
  {
    && (forall x | x in h.list :: x in h.blocks && h.blocks[x].size < size)
    && Unused(h) < size + 32
    && os.Ask(if size + 32 > arenaSize then size + 32 else arenaSize).0.None?
  }

  /** The two ways to serve a request: from a listed block that fits, or by carving. */
  lemma AllocateReuses(h: Heap, os: Os, arenaSize: int, size: int)
    requires Valid(h) && MappedBy(h, os) && LINKS <= size && size % ALIGNMENT == 0
    requires forall i | 0 <= i < |h.list| :: h.list[i] in h.blocks
    requires FirstFitBlock(h.blocks, h.list, size) != 0
    ensures var (h', os', ptr) := Allocate(h, os, arenaSize, size);
            && Valid(h') && MappedBy(h', os') && ptr != 0 && Handed(h, h', ptr, size)
  {
    var fit := FirstFitBlock(h.blocks, h.list, size);
    ReuseHanded(h, fit, size);
    assert BlockOk(h.arenas, h.blocks, fit);
    assert Reuse(h, fit, size).arenas == h.arenas;
  }

  /** An arena with room is found when the last one has it or the system grants another. */
  lemma RoomFound(h: Heap, os: Os, arenaSize: int, size: int)
    requires 0 <= size
    ensures var (h1, os1, found) := WithRoom(h, os, arenaSize, size);
            && (found <==> HasRoom(h, size) || os.Ask(RequestSize(OVERHEAD + size, arenaSize)).0.Some?)
            && (HasRoom(h, size) ==> os1 == os) && (!found ==> h1 == h)
            && AllocateNew(h, os, arenaSize, size) ==
                 if found then (Carve(h1, size), os1, h1.arenas[|h1.arenas| - 1].End() + HEADER) else (h, os1, 0)
  {
  }

  /** The block carved from it is handed out. */
  lemma RoomHanded(h: Heap, os: Os, arenaSize: int, size: int, h1: Heap, os1: Os)
    requires Valid(h) && MappedBy(h, os) && LINKS <= size && size % ALIGNMENT == 0
    requires WithRoom(h, os, arenaSize, size) == (h1, os1, true)
    ensures h1.arenas != [] && 0 < h1.arenas[|h1.arenas| - 1].End() && Valid(Carve(h1, size))
    ensures Handed(h, Carve(h1, size), h1.arenas[|h1.arenas| - 1].End() + HEADER, size)
  {
    WithRoomRoomy(h, os, arenaSize, size);
    RoomyEnd(h1, size);
    CarveHanded(h, h1, size);
  }

  lemma RoomyEnd(h: Heap, size: int)
    requires Roomy(h, size)
    ensures h.arenas != [] && 0 < h.arenas[|h.arenas| - 1].End()
  {
    assert 0 < h.arenas[|h.arenas| - 1].base && 0 <= h.arenas[|h.arenas| - 1].used;
  }

  lemma AllocateCarves(h: Heap, os: Os, arenaSize: int, size: int)
    requires Valid(h) && MappedBy(h, os) && LINKS <= size && size % ALIGNMENT == 0
    requires forall i | 0 <= i < |h.list| :: h.list[i] in h.blocks
    requires forall x | x in h.list :: x in h.blocks && h.blocks[x].size < size
    ensures var (h', os', ptr) := AllocateNew(h, os, arenaSize, size);
            && Valid(h') && (ptr != 0 ==> Handed(h, h', ptr, size))
            && (ptr == 0 <==> NoMemory(h, os, arenaSize, size)) && (ptr == 0 ==> h' == h)
            && (HasRoom(h, size) ==> os' == os)
  {
    RoomFound(h, os, arenaSize, size);
    var (h1, os1, found) := WithRoom(h, os, arenaSize, size);
    if found {
      RoomHanded(h, os, arenaSize, size, h1, os1);
    }
  }

  /** my_malloc on the general path keeps the heap valid and hands out what Handed says, or
      returns null, exactly when there is no memory; then nothing has changed. The system is
      asked only when neither a listed block nor the last arena can serve the request. */
  lemma AllocateMeans(h: Heap, os: Os, arenaSize: int, size: int)
    requires Valid(h) && MappedBy(h, os) && LINKS <= size && size % ALIGNMENT == 0
    ensures forall i | 0 <= i < |h.list| :: h.list[i] in h.blocks
    ensures var (h', os', ptr) := Allocate(h, os, arenaSize, size);
            && Valid(h') && MappedBy(h', os')
            && (ptr != 0 ==> Handed(h, h', ptr, size))
            && (ptr == 0 <==> NoMemory(h, os, arenaSize, size)) && (ptr == 0 ==> h' == h)
            && (os' != os ==> Unused(h) < size + 32 && forall x | x in h.list :: x in h.blocks && h.blocks[x].size < size)
  {
    ListedBlocks(h);
    if FirstFitBlock(h.blocks, h.list, size) != 0 {
      AllocateReuses(h, os, arenaSize, size);
    } else {
      FirstFitComplete(h.blocks, h.list, size);
      AllocateCarves(h, os, arenaSize, size);
      MappedAfter(h, os, arenaSize, size);
    }
  }

  // ---- Arenas ----------------------------------------------------------------------------

  /** An allocation opens at most one arena, and that one is of the usual size, or as large as the
      block when the block is larger, rounded up to pages. */
  lemma OpenedArena(h: Heap, os: Os, arenaSize: int, size: int)
    requires Valid(h) && MappedBy(h, os) && LINKS <= size && size % ALIGNMENT == 0
    ensures forall i | 0 <= i < |h.list| :: h.list[i] in h.blocks
    ensures var h' := Allocate(h, os, arenaSize, size).0;
            || |h'.arenas| == |h.arenas|
            || (&& |h'.arenas| == |h.arenas| + 1
                && var bytes := h'.arenas[|h.arenas|].size;
                && arenaSize <= bytes && size + 32 <= bytes
                && (bytes < arenaSize + 4096 || bytes < size + 32 + 4096))
  {
    ListedBlocks(h);
    AskGrants(os, RequestSize(OVERHEAD + size, arenaSize));
  }

  /** What one allocation leaves of the uncarved bytes. */
  lemma UnusedAfter(h: Heap, os: Os, arenaSize: int, size: int)
    requires Valid(h) && MappedBy(h, os) && LINKS <= size && size % ALIGNMENT == 0
    ensures forall i | 0 <= i < |h.list| :: h.list[i] in h.blocks
    ensures var (h', os', ptr) := Allocate(h, os, arenaSize, size);
            && (size + 32 <= Unused(h) ==> os' == os && ptr != 0 && Unused(h) - (size + 32) <= Unused(h'))
            && (|h'.arenas| > |h.arenas| ==> arenaSize - (size + 32) <= Unused(h'))
  {
    AllocateMeans(h, os, arenaSize, size);
    OpenedArena(h, os, arenaSize, size);
    ListedBlocks(h);
  }

  /** One allocation after another. */
  ghost predicate AllocatesTo(h: Heap, os: Os, arenaSize: int, size: int, h': Heap, os': Os, ptr: int) {
    && LINKS <= size && size % ALIGNMENT == 0
    && (forall i | 0 <= i < |h.list| :: h.list[i] in h.blocks)
    && (h', os', ptr) == Allocate(h, os, arenaSize, size)
  }

  lemma OneServed(h: Heap, os: Os, arenaSize: int, size: int, h': Heap, os': Os, ptr: int)
    requires AllocatesTo(h, os, arenaSize, size, h', os', ptr) && Valid(h) && MappedBy(h, os)
    ensures 0 < size && Valid(h') && MappedBy(h', os')
    ensures size + 32 <= Unused(h) ==> os' == os && ptr != 0 && Unused(h) - (size + 32) <= Unused(h')
  {
    AllocateMeans(h, os, arenaSize, size);
    UnusedAfter(h, os, arenaSize, size);
  }

  /** The bytes of the first n blocks, headers and footers included. */
  ghost function BlockBytes(sizes: seq<int>, n: nat): int
    requires n <= |sizes|
  {
    if n == 0 then 0 else BlockBytes(sizes, n - 1) + sizes[n - 1] + 32
  }

  /** A run of allocations from heap hs[0] under system oss[0]. */
  ghost predicate AllocationRun(hs: seq<Heap>, oss: seq<Os>, ptrs: seq<int>, sizes: seq<int>, arenaSize: int) {
    && |hs| == |oss| == |sizes| + 1 && |ptrs| == |sizes| && Valid(hs[0]) && MappedBy(hs[0], oss[0])
    && forall k {:trigger AllocatesAt(hs, oss, ptrs, sizes, arenaSize, k)} | 0 <= k < |sizes| ::
         AllocatesAt(hs, oss, ptrs, sizes, arenaSize, k)
  }

  ghost predicate AllocatesAt(hs: seq<Heap>, oss: seq<Os>, ptrs: seq<int>, sizes: seq<int>, arenaSize: int, k: int) {
    && 0 <= k < |sizes| && |hs| == |oss| == |sizes| + 1 && |ptrs| == |sizes|
    && AllocatesTo(hs[k], oss[k], arenaSize, sizes[k], hs[k + 1], oss[k + 1], ptrs[k])
  }

  lemma ServedAt(hs: seq<Heap>, oss: seq<Os>, ptrs: seq<int>, sizes: seq<int>, arenaSize: int, k: nat)
    requires AllocatesAt(hs, oss, ptrs, sizes, arenaSize, k) && Valid(hs[k]) && MappedBy(hs[k], oss[k])
    ensures 0 < sizes[k] && Valid(hs[k + 1]) && MappedBy(hs[k + 1], oss[k + 1])
    ensures sizes[k] + 32 <= Unused(hs[k]) ==>
              oss[k + 1] == oss[k] && ptrs[k] != 0 && Unused(hs[k]) - (sizes[k] + 32) <= Unused(hs[k + 1])
  {
    OneServed(hs[k], oss[k], arenaSize, sizes[k], hs[k + 1], oss[k + 1], ptrs[k]);
  }

  /** As long as the blocks together fit in what is left of the last arena, they are all served
      and the system is not asked. */
  lemma {:induction false} ArenaServes(hs: seq<Heap>, oss: seq<Os>, ptrs: seq<int>, sizes: seq<int>, arenaSize: int, n: nat)
    requires AllocationRun(hs, oss, ptrs, sizes, arenaSize) && n <= |sizes| && BlockBytes(sizes, n) <= Unused(hs[0])
    ensures oss[n] == oss[0] && Valid(hs[n]) && MappedBy(hs[n], oss[n])
    ensures Unused(hs[0]) - BlockBytes(sizes, n) <= Unused(hs[n])
    ensures forall k | 0 <= k < n :: ptrs[k] != 0
    decreases n
  {
    if n == 0 {
    } else {
      assert AllocatesAt(hs, oss, ptrs, sizes, arenaSize, n - 1);
      assert 0 < sizes[n - 1];
      ArenaServes(hs, oss, ptrs, sizes, arenaSize, n - 1);
      ServedAt(hs, oss, ptrs, sizes, arenaSize, n - 1);
    }
  }

  /** After an allocation that opened an arena, blocks that together with that first one fit in an
      arena of the usual size are all served without asking the system again. */
  lemma ArenaLasts(h: Heap, os: Os, size: int, p: int,
                   hs: seq<Heap>, oss: seq<Os>, ptrs: seq<int>, sizes: seq<int>, arenaSize: int)
    requires Valid(h) && MappedBy(h, os) && AllocationRun(hs, oss, ptrs, sizes, arenaSize)
    requires AllocatesTo(h, os, arenaSize, size, hs[0], oss[0], p) && |hs[0].arenas| > |h.arenas|
    requires size + 32 + BlockBytes(sizes, |sizes|) <= arenaSize
    ensures oss[|sizes|] == oss[0] && forall k | 0 <= k < |sizes| :: ptrs[k] != 0
  {
    UnusedAfter(h, os, arenaSize, size);
    ArenaServes(hs, oss, ptrs, sizes, arenaSize, |sizes|);
  }

  /** When anything listed fits, the earliest such block serves the request and the system is
      not asked. */
  lemma AllocateIsFirstFit(h: Heap, os: Os, arenaSize: int, size: int, k: nat)
    requires Valid(h) && 0 <= size
    requires k < |h.list| && h.list[k] in h.blocks && h.blocks[h.list[k]].size >= size
    requires forall i | 0 <= i < k :: h.list[i] in h.blocks && h.blocks[h.list[i]].size < size
    ensures forall i | 0 <= i < |h.list| :: h.list[i] in h.blocks
    ensures var (h', os', ptr) := Allocate(h, os, arenaSize, size);
            ptr == h.list[k] + HEADER && os' == os
  {
    ListedBlocks(h);
    FirstFitIs(h.blocks, h.list, size, k);
  }

  /** Serving from block a touches a and, at most, adds a remainder. */
  lemma ReuseBlocks(h: Heap, a: int, size: int)
    requires Tiled(h.arenas, h.blocks) && a in h.blocks && h.blocks[a].free
    requires LINKS <= size <= h.blocks[a].size
    ensures forall x | IsLive(h, x) :: StillLive(h, Reuse(h, a, size), x)
    ensures forall x | IsLive(Reuse(h, a, size), x) && x != a :: StillLive(h, Reuse(h, a, size), x)
  {
    SplitTiled(h.(list := Without(h.list, a)), a, size);
  }

  lemma MappedAfter(h: Heap, os: Os, arenaSize: int, size: int)
    requires Valid(h) && MappedBy(h, os) && LINKS <= size
    requires forall i | 0 <= i < |h.list| :: h.list[i] in h.blocks
    ensures var (h', os', ptr) := Allocate(h, os, arenaSize, size); MappedBy(h', os')
  {
    AskGrants(os, RequestSize(OVERHEAD + size, arenaSize));
    var (h', os', ptr) := Allocate(h, os, arenaSize, size);
    forall i | 0 <= i < |h'.arenas|
      ensures WordsOf(Region(h'.arenas[i].base, h'.arenas[i].size)) <= os'.mapped
    {
      if i < |h.arenas| {
        assert WordsOf(Region(h.arenas[i].base, h.arenas[i].size)) <= os.mapped;
      }
    }
  }

  // ---- Freeing ---------------------------------------------------------------------------

  /** my_free ends one live block and leaves every other as it was. */
  lemma ReleaseMeans(h: Heap, a: int)
    requires Valid(h) && IsLive(h, a)
    ensures h.blocks[a].arena < |h.arenas| && Valid(Release(h, a)) && !IsLive(Release(h, a), a)
    ensures Release(h, a).arenas == h.arenas
    ensures forall x | x != a :: IsLive(Release(h, a), x) <==> IsLive(h, x)
    ensures forall x | IsLive(h, x) && x != a :: StillLive(h, Release(h, a), x)
  {
    ReleaseValid(h, a);
    ReleaseRightKeeps(h, a);
    NeighbourFacts(Mark(h, a, true), a) by {
      MarkedTiled(h.arenas, h.blocks, a, true);
    }
    var half := ReleaseRight(h, a);
    NeighbourFacts(half, a);
    assert forall x | x != a :: IsLive(half, x) <==> IsLive(h, x);
  }

  /** Growing in place keeps the address, reaches the size and leaves every other live block
      as it was. */
  lemma GrowMeans(h: Heap, a: int, size: int)
    requires Valid(h) && IsLive(h, a) && h.blocks[a].arena < |h.arenas|
    requires CanGrow(h, a, size) && h.blocks[a].size <= size && size % ALIGNMENT == 0
    ensures var h' := Grow(h, a, size);
            && Valid(h') && IsLive(h', a) && h'.arenas == h.arenas
            && size <= h'.blocks[a].size < size + 48
            && (forall r | Adjacent(h.blocks, a, r) ::
                  var whole := Past(r, h.blocks[r]) - 16 - (a + 16);
                  h'.blocks[a].size == if whole - size >= 48 then size else whole)
            && (forall x | x != a :: IsLive(h', x) <==> IsLive(h, x))
            && (forall x | IsLive(h, x) && x != a :: StillLive(h, h', x))
  {
    GrowValid(h, a, size);
    NeighbourFacts(h, a);
    var r := RightOf(h, a).value;
    JoinedTiled(h.arenas, h.blocks, a, r);
    assert BlockOk(h.arenas, h.blocks, a);
    SplitTiled(AbsorbRight(h, a, r), a, size);
  }

  /** Joining the two halves of a split restores the block. */
  lemma JoinUndoesSplit(h: Heap, a: int, size: int)
    requires Tiled(h.arenas, h.blocks) && a in h.blocks
    requires LINKS <= size && h.blocks[a].size - size >= MIN_BLOCK
    ensures var split, rest := Split(h, a, size), Past(a, h.blocks[a].(size := size));
            && rest in split.blocks && Joined(split.blocks, a, rest) == h.blocks
            && Tiled(split.arenas, split.blocks) && Adjacent(split.blocks, a, rest) && split.blocks[rest].free
  {
    SplitTiled(h, a, size);
    var split, rest := Split(h, a, size), Past(a, h.blocks[a].(size := size));
    assert Joined(split.blocks, a, rest).Keys == h.blocks.Keys;
  }

  /** The first half of freeing what Reuse just served. */
  lemma ReleaseUndoesReuse(h: Heap, a: int, size: int)
    requires Valid(h) && a in h.list && LINKS <= size <= h.blocks[a].size && size % ALIGNMENT == 0
    ensures var used := Reuse(h, a, size);
            && a in used.blocks && used.blocks[a].arena < |used.arenas|
            && ReleaseRight(used, a) == h.(list := Without(h.list, a))
  {
    var h0 := h.(list := Without(h.list, a));
    var split := Split(h0, a, size);
    var used := Reuse(h, a, size);
    WithoutMembers(h.list, a);
    SplitTiled(h0, a, size);
    assert BlockOk(split.arenas, split.blocks, a);
    assert Mark(used, a, true) == split;
    NeighbourFacts(split, a);
    if h.blocks[a].size - size >= MIN_BLOCK {
      JoinUndoesSplit(h0, a, size);
      var rest := Past(a, h.blocks[a].(size := size));
      assert RightOf(split, a) == Some(rest);
      assert ([rest] + h0.list)[1..] == h0.list;
    }
  }

  /** Freeing what first fit just handed out restores every block exactly, and the free list
      up to order, whether or not the block was split. */
  lemma FreeUndoesMalloc(h: Heap, a: int, size: int)
    requires Valid(h) && a in h.list && LINKS <= size <= h.blocks[a].size && size % ALIGNMENT == 0
    ensures var used := Reuse(h, a, size);
            && a in used.blocks && used.blocks[a].arena < |used.arenas|
            && Release(used, a).blocks == h.blocks
            && Release(used, a).arenas == h.arenas
            && multiset(Release(used, a).list) == multiset(h.list)
  {
    ReleaseUndoesReuse(h, a, size);
    WithoutMembers(h.list, a);
    var half := h.(list := Without(h.list, a));
    NeighbourFacts(half, a);
  }

  // ---- Fragmentation ---------------------------------------------------------------------

  ghost function FreeSet(h: Heap): set<int> { set a | a in h.blocks && h.blocks[a].free }

  ghost function LiveSet(h: Heap): set<int> { set a | a in h.blocks && !h.blocks[a].free }

  lemma Member<T>(s: set<T>) returns (x: T)
    requires s != {}
    ensures x in s
  {
    x :| x in s;
  }

  /** A map that never takes one value twice has no more keys than its values allow. */
  lemma {:induction false} Pigeonhole(m: map<int, int>, values: set<int>)
    requires forall x | x in m :: m[x] in values
    requires forall x, y | x in m && y in m && m[x] == m[y] :: x == y
    ensures |m| <= |values|
    decreases |m|
  {
    if m.Keys == {} {
    } else {
      var x := Member(m.Keys);
      var rest := m - {x};
      assert rest.Keys == m.Keys - {x};
      Pigeonhole(rest, values - {m[x]});
    }
  }

  lemma {:induction false} DistinctCount(s: seq<int>, members: set<int>)
    requires NoDuplicates(s) && forall x :: x in s <==> x in members
    ensures |s| == |members|
  {
    if s == [] {
      assert forall x | x in members :: x in s;
      assert members == {};
    } else {
      assert s == [s[0]] + s[1..] && s[0] !in s[1..];
      DistinctCount(s[1..], members - {s[0]});
    }
  }

  ghost function UpTo(n: nat): set<int> {
    if n == 0 then {} else UpTo(n - 1) + {n - 1}
  }

  lemma {:induction false} UpToCount(n: nat)
    ensures |UpTo(n)| == n && forall i :: i in UpTo(n) <==> 0 <= i < n
  {
    if n == 0 {
    } else {
      UpToCount(n - 1);
    }
  }

  /** A free block that is not the last of its arena is followed by a live one. */
  lemma FreeThenLive(h: Heap, a: int)
    requires Valid(h) && a in FreeSet(h)
    ensures h.blocks[a].arena < |h.arenas|
    ensures Past(a, h.blocks[a]) != h.arenas[h.blocks[a].arena].End() ==> Past(a, h.blocks[a]) in LiveSet(h)
  {
    assert BlockOk(h.arenas, h.blocks, a);
    var r := Past(a, h.blocks[a]);
    assert r != h.arenas[h.blocks[a].arena].End() ==> Adjacent(h.blocks, a, r);
  }

  lemma EndsDiffer(h: Heap, a: int, b: int)
    requires Tiled(h.arenas, h.blocks) && a in h.blocks && b in h.blocks && a != b
    ensures Past(a, h.blocks[a]) != Past(b, h.blocks[b])
  {
    assert BlockOk(h.arenas, h.blocks, a) && BlockOk(h.arenas, h.blocks, b);
    Disjoint(h.arenas, h.blocks, a, b);
  }

  ghost predicate IsLast(h: Heap, a: int)
    requires a in h.blocks
  {
    h.blocks[a].arena < |h.arenas| && Past(a, h.blocks[a]) == h.arenas[h.blocks[a].arena].End()
  }

  /** No more free blocks inside the arenas than live blocks: each is followed by its own. */
  lemma InnerBound(h: Heap)
    requires Valid(h)
    ensures |(set a | a in FreeSet(h) && !IsLast(h, a))| <= |LiveSet(h)|
  {
    var next := map a | a in FreeSet(h) && !IsLast(h, a) :: Past(a, h.blocks[a]);
    forall a | a in next ensures next[a] in LiveSet(h) {
      FreeThenLive(h, a);
    }
    forall a, b | a in next && b in next && next[a] == next[b] ensures a == b {
      if a != b {
        EndsDiffer(h, a, b);
      }
    }
    Pigeonhole(next, LiveSet(h));
    assert next.Keys == set a | a in FreeSet(h) && !IsLast(h, a);
  }

  /** No more free blocks at arena ends than arenas. */
  lemma LastBound(h: Heap)
    requires Valid(h)
    ensures |(set a | a in FreeSet(h) && IsLast(h, a))| <= |h.arenas|
  {
    var index := map a | a in FreeSet(h) && IsLast(h, a) :: h.blocks[a].arena as int;
    forall a, b | a in index && b in index && index[a] == index[b] ensures a == b {
      if a != b {
        EndsDiffer(h, a, b);
      }
    }
    UpToCount(|h.arenas|);
    Pigeonhole(index, UpTo(|h.arenas|));
    assert index.Keys == set a | a in FreeSet(h) && IsLast(h, a);
  }

  /** Free blocks never outnumber live blocks and arenas together, and the list has one entry
      for each. */
  lemma FragmentationBound(h: Heap)
    requires Valid(h)
    ensures |h.list| == |FreeSet(h)| <= |LiveSet(h)| + |h.arenas|
  {
    DistinctCount(h.list, FreeSet(h));
    InnerBound(h);
    LastBound(h);
    var inner, last := set a | a in FreeSet(h) && !IsLast(h, a), set a | a in FreeSet(h) && IsLast(h, a);
    assert FreeSet(h) == inner + last;
  }

  /** An arena with nothing live is one free block. */
  lemma SoleBlock(h: Heap, i: nat)
    requires Valid(h) && LiveSet(h) == {} && i < |h.arenas|
    ensures var a := h.arenas[i].base;
            && a in h.blocks && h.blocks[a] == Block(h.arenas[i].used - OVERHEAD, true, i)
            && forall b | b in h.blocks && h.blocks[b].arena == i :: b == a
  {
    var a := h.arenas[i].base;
    assert 0 < h.arenas[i].used && BlockOk(h.arenas, h.blocks, a);
    assert a !in LiveSet(h);
    FreeThenLive(h, a);
    forall b | b in h.blocks && h.blocks[b].arena == i ensures b == a {
      assert BlockOk(h.arenas, h.blocks, b);
      if b != a {
        Disjoint(h.arenas, h.blocks, a, b);
      }
    }
  }

  lemma NoMembers<T>(s: set<T>)
    requires forall x :: x !in s
    ensures s == {}
  {
  }

  /** When nothing is live, each arena is a single free block over its whole carved part, and
      the list has exactly one entry for each arena. */
  lemma NothingLive(h: Heap)
    requires Valid(h) && LiveSet(h) == {}
    ensures forall i | 0 <= i < |h.arenas| ::
              && h.arenas[i].base in h.blocks
              && h.blocks[h.arenas[i].base] == Block(h.arenas[i].used - 32, true, i)
    ensures forall a | a in h.blocks :: h.blocks[a].arena < |h.arenas| && a == h.arenas[h.blocks[a].arena].base
    ensures |h.list| == |h.arenas|
  {
    forall i | 0 <= i < |h.arenas|
      ensures h.arenas[i].base in h.blocks && h.arenas[i].base in FreeSet(h)
      ensures h.blocks[h.arenas[i].base] == Block(h.arenas[i].used - OVERHEAD, true, i)
    {
      SoleBlock(h, i);
    }
    forall a | a in h.blocks ensures h.blocks[a].arena < |h.arenas| && a == h.arenas[h.blocks[a].arena].base {
      assert BlockOk(h.arenas, h.blocks, a);
      SoleBlock(h, h.blocks[a].arena);
    }
    FragmentationBound(h);
    var bases := map i | 0 <= i < |h.arenas| :: h.arenas[i].base;
    Pigeonhole(bases, FreeSet(h));
    UpToCount(|h.arenas|);
    assert bases.Keys == UpTo(|h.arenas|);
  }
}
