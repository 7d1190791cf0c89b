/** The general heap as a value: arenas, the blocks that tile them, and the order of the free
    list. Every operation of the general path is a function on this value. */
module HeapModel {
  import opened Machine
  import opened BlockTags
  import opened FreeLists

  /** An operating system region, carved from its base up to base + used. */
  datatype Arena = Arena(base: int, size: int, used: int) {
    function End(): int { base + used }
  }

  /** A block of `size` payload bytes in arena number `arena`. */
  datatype Block = Block(size: int, free: bool, arena: nat)

  type Blocks = map<int, Block>

  datatype Heap = Heap(arenas: seq<Arena>, blocks: Blocks, list: seq<int>)

  const EMPTY_HEAP := Heap([], map[], [])

  /** The address just past a block. */
  function Past(a: int, b: Block): int { a + OVERHEAD + b.size }

  /** A block in a client's hands. */
  ghost predicate IsLive(h: Heap, a: int) {
    a in h.blocks && !h.blocks[a].free
  }

  // ---- Well-formedness -------------------------------------------------------------------

  ghost predicate ArenasOk(arenas: seq<Arena>) {
    && (forall i | 0 <= i < |arenas| ::
          0 < arenas[i].base && 0 <= arenas[i].used <= arenas[i].size)
    && forall i, j | 0 <= i < j < |arenas| ::
         || arenas[i].base + arenas[i].size <= arenas[j].base
         || arenas[j].base + arenas[j].size <= arenas[i].base
  }

  /** Every address and size is a multiple of the alignment. */
  ghost predicate Aligned(arenas: seq<Arena>, blocks: Blocks) {
    && (forall i {:trigger ArenaAligned(arenas[i])} | 0 <= i < |arenas| :: ArenaAligned(arenas[i]))
    && (forall a {:trigger BlockAligned(blocks, a)} | a in blocks :: BlockAligned(blocks, a))
  }

  ghost predicate ArenaAligned(arena: Arena) {
    arena.base % ALIGNMENT == 0 && arena.used % ALIGNMENT == 0
  }

  ghost predicate BlockAligned(blocks: Blocks, a: int)
    requires a in blocks
  {
    a % ALIGNMENT == 0 && blocks[a].size % ALIGNMENT == 0
  }

  /** A block is large enough for its links, inside the carved part of its arena,
      and followed by another block of that arena unless it is the last. */
  ghost predicate BlockOk(arenas: seq<Arena>, blocks: Blocks, a: int)
    requires a in blocks
  {
    var b := blocks[a];
    && LINKS <= b.size
    && b.arena < |arenas|
    && arenas[b.arena].base <= a && Past(a, b) <= arenas[b.arena].End()
    && (Past(a, b) != arenas[b.arena].End() ==>
          Past(a, b) in blocks && blocks[Past(a, b)].arena == b.arena)
  }

  ghost predicate Ordered(blocks: Blocks, a: int, b: int)
    requires a in blocks && b in blocks
  {
    a < b ==> Past(a, blocks[a]) <= b
  }

  /** The blocks tile the carved part of every arena: each starts with a block, each block
      runs into the next, and no two overlap. */
  ghost predicate Tiled(arenas: seq<Arena>, blocks: Blocks) {
    && ArenasOk(arenas)
    && (forall a {:trigger BlockOk(arenas, blocks, a)} | a in blocks :: BlockOk(arenas, blocks, a))
    && (forall a, b {:trigger Ordered(blocks, a, b)} | a in blocks && b in blocks :: Ordered(blocks, a, b))
    && (forall i | 0 <= i < |arenas| && 0 < arenas[i].used ::
          arenas[i].base in blocks && blocks[arenas[i].base].arena == i)
  }

  /** Block r physically follows block a in the same arena. */
  ghost predicate Adjacent(blocks: Blocks, a: int, r: int) {
    && a in blocks && r in blocks
    && Past(a, blocks[a]) == r && blocks[a].arena == blocks[r].arena
  }

  ghost predicate NoFreeNeighbours(blocks: Blocks) {
    forall a, r | Adjacent(blocks, a, r) :: !(blocks[a].free && blocks[r].free)
  }

  /** The list holds free blocks, each once. */
  ghost predicate ListsFree(blocks: Blocks, list: seq<int>) {
    && NoDuplicates(list)
    && forall x | x in list :: x in blocks && blocks[x].free
  }

  ghost predicate NoEmptyArena(arenas: seq<Arena>) {
    forall i | 0 <= i < |arenas| :: 0 < arenas[i].used
  }

  /** The whole invariant of the general heap between calls. */
  ghost predicate Valid(h: Heap) {
    && NoEmptyArena(h.arenas)
    && Tiled(h.arenas, h.blocks)
    && Aligned(h.arenas, h.blocks)
    && NoFreeNeighbours(h.blocks)
    && ListsFree(h.blocks, h.list)
    && FreeAreListed(h)
  }

  ghost predicate FreeAreListed(h: Heap) {
    forall a | a in h.blocks && h.blocks[a].free :: a in h.list
  }

  /** A heap ready for carving: valid, except that its last arena may have just been opened. */
  ghost predicate Roomy(h: Heap, size: int) {
    && Tiled(h.arenas, h.blocks) && Aligned(h.arenas, h.blocks)
    && NoFreeNeighbours(h.blocks) && ListsFree(h.blocks, h.list) && FreeAreListed(h)
    && HasRoom(h, size) && NoEmptyArena(h.arenas[..|h.arenas| - 1])
  }

  // ---- Operations ------------------------------------------------------------------------

  /** The block after a, when a is not the last of its arena. */
  ghost function RightOf(h: Heap, a: int): Option<int>
    requires a in h.blocks && h.blocks[a].arena < |h.arenas|
  {
    var b := h.blocks[a];
    if Past(a, b) < h.arenas[b.arena].End() then Some(Past(a, b)) else None
  }

  ghost function LeftOf(h: Heap, a: int): Option<int> {
    if exists p :: Adjacent(h.blocks, p, a) then
      var p :| Adjacent(h.blocks, p, a);
      Some(p)
    else None
  }

  ghost predicate IsFreeBlock(h: Heap, a: Option<int>) {
    a.Some? && a.value in h.blocks && h.blocks[a.value].free
  }

  function Joined(blocks: Blocks, a: int, r: int): Blocks
    requires a in blocks && r in blocks
  {
    (blocks - {r})[a := blocks[a].(size := blocks[a].size + OVERHEAD + blocks[r].size)]
  }

  /** Absorbs the free block r on the right of a. */
  ghost function AbsorbRight(h: Heap, a: int, r: int): Heap
    requires a in h.blocks && r in h.blocks
  {
    h.(blocks := Joined(h.blocks, a, r), list := Without(h.list, r))
  }

  /** Shrinks a to `size` bytes when what is left over can stand as a free block. */
  ghost function Split(h: Heap, a: int, size: int): Heap
    requires a in h.blocks
  {
    var b := h.blocks[a];
    if b.size - size < MIN_BLOCK then h
    else
      var rest := Past(a, b.(size := size));
      Heap(h.arenas,
           h.blocks[a := b.(size := size)][rest := Block(b.size - size - OVERHEAD, true, b.arena)],
           [rest] + h.list)
  }

  function Marked(blocks: Blocks, a: int, free: bool): Blocks
    requires a in blocks
  {
    blocks[a := blocks[a].(free := free)]
  }

  ghost function Mark(h: Heap, a: int, free: bool): Heap
    requires a in h.blocks
  {
    h.(blocks := Marked(h.blocks, a, free))
  }

  /** Serving a request from the free block a. */
  ghost function Reuse(h: Heap, a: int, size: int): Heap
    requires a in h.blocks
  {
    Mark(Split(h.(list := Without(h.list, a)), a, size), a, false)
  }

  /** Carving a block from the unused end of the last arena. */
  ghost function Carve(h: Heap, size: int): Heap
    requires h.arenas != []
  {
    var last := |h.arenas| - 1;
    var arena := h.arenas[last];
    Heap(h.arenas[last := arena.(used := arena.used + OVERHEAD + size)],
         h.blocks[arena.End() := Block(size, false, last)],
         h.list)
  }

  ghost predicate HasRoom(h: Heap, size: int) {
    h.arenas != [] && var arena := h.arenas[|h.arenas| - 1]; arena.size - arena.used >= OVERHEAD + size
  }

  /** The bytes of the last arena that have not been carved. */
  function Unused(h: Heap): int {
    if h.arenas == [] then 0 else h.arenas[|h.arenas| - 1].size - h.arenas[|h.arenas| - 1].used
  }

  /** The earliest listed block of at least `size` bytes, or null. */
  ghost function FirstFitBlock(blocks: Blocks, list: seq<int>, size: int): (a: int)
    requires forall i | 0 <= i < |list| :: list[i] in blocks
    ensures a != 0 ==> a in list && a in blocks && blocks[a].size >= size
  {
    if list == [] then 0
    else if blocks[list[0]].size >= size then list[0]
    else FirstFitBlock(blocks, list[1..], size)
  }

  /** A new arena, before its first block is carved. */
  ghost function OpenArena(h: Heap, r: Region): Heap {
    h.(arenas := h.arenas + [Arena(r.base, r.size, 0)])
  }

  /** What arena_with_room asks of the system. */
  function RequestSize(needed: int, arenaSize: int): int {
    if needed > arenaSize then needed else arenaSize
  }

  /** First fit means a large enough member with only smaller ones before it. */
  lemma {:induction false} FirstFitIs(blocks: Blocks, list: seq<int>, size: int, k: nat)
    requires forall i | 0 <= i < |list| :: list[i] in blocks && list[i] != 0
    requires k <= |list| && forall i | 0 <= i < k :: blocks[list[i]].size < size
    requires k < |list| ==> blocks[list[k]].size >= size
    ensures FirstFitBlock(blocks, list, size) == if k < |list| then list[k] else 0
  {
    if k == 0 {
    } else {
      FirstFitIs(blocks, list[1..], size, k - 1);
    }
  }

  /** When first fit finds nothing, nothing fits. */
  lemma {:induction false} FirstFitComplete(blocks: Blocks, list: seq<int>, size: int)
    requires forall i | 0 <= i < |list| :: list[i] in blocks && list[i] != 0
    requires FirstFitBlock(blocks, list, size) == 0
    ensures forall x | x in list :: blocks[x].size < size
  {
    if list == [] {
    } else {
      FirstFitComplete(blocks, list[1..], size);
      assert list == [list[0]] + list[1..];
    }
  }

  /** arena_with_room: the last arena when it has room, else a new one, if granted. */
  ghost function WithRoom(h: Heap, os: Os, arenaSize: int, size: int): (Heap, Os, bool)
    requires 0 <= size
  {
    if HasRoom(h, size) then (h, os, true)
    else
      var (answer, os') := os.Ask(RequestSize(OVERHEAD + size, arenaSize));
      if answer.Some? then (OpenArena(h, answer.value), os', true) else (h, os', false)
  }

  /** my_malloc when no free block fits: carve from an arena with room. */
  ghost function AllocateNew(h: Heap, os: Os, arenaSize: int, size: int): (Heap, Os, int)
    requires 0 <= size
  {
    var (h', os', found) := WithRoom(h, os, arenaSize, size);
    if found && h'.arenas != [] then
      (Carve(h', size), os', h'.arenas[|h'.arenas| - 1].End() + HEADER)
    else
      (h', os', 0)
  }

  /** my_malloc on the general path, for an aligned payload size: the heap and the system
      afterwards, and the payload address handed out (null when refused). */
  ghost function Allocate(h: Heap, os: Os, arenaSize: int, size: int): (Heap, Os, int)
    requires forall i | 0 <= i < |h.list| :: h.list[i] in h.blocks
    requires 0 <= size
  {
    var fit := FirstFitBlock(h.blocks, h.list, size);
    if fit != 0 then (Reuse(h, fit, size), os, fit + HEADER)
    else AllocateNew(h, os, arenaSize, size)
  }

  /** Freeing a, first half: mark it and absorb a free right neighbour. */
  ghost function ReleaseRight(h: Heap, a: int): Heap
    requires a in h.blocks && h.blocks[a].arena < |h.arenas|
  {
    var marked := Mark(h, a, true);
    var right := RightOf(marked, a);
    if IsFreeBlock(marked, right) then AbsorbRight(marked, a, right.value) else marked
  }

  /** Second half: be absorbed by a free left neighbour, and list the result once. */
  ghost function ReleaseLeft(h: Heap, a: int): Heap
    requires a in h.blocks
  {
    var left := LeftOf(h, a);
    if IsFreeBlock(h, left) then
      Heap(h.arenas, Joined(h.blocks, left.value, a), [left.value] + Without(h.list, left.value))
    else
      h.(list := [a] + h.list)
  }

  ghost function Release(h: Heap, a: int): Heap
    requires a in h.blocks && h.blocks[a].arena < |h.arenas|
  {
    ReleaseLeft(ReleaseRight(h, a), a)
  }

  /** Whether a can grow to `size` bytes where it stands. */
  ghost predicate CanGrow(h: Heap, a: int, size: int)
    requires a in h.blocks && h.blocks[a].arena < |h.arenas|
  {
    var right := RightOf(h, a);
    IsFreeBlock(h, right) && h.blocks[a].size + OVERHEAD + h.blocks[right.value].size >= size
  }

  /** The free block right after a ends far enough on for `size` payload bytes from behind a's
      header up to that block's footer. */
  ghost predicate RoomBeside(blocks: Blocks, a: int, size: int) {
    exists r :: Adjacent(blocks, a, r) && blocks[r].free && size <= Past(r, blocks[r]) - 16 - (a + 16)
  }

  ghost function Grow(h: Heap, a: int, size: int): Heap
    requires a in h.blocks && h.blocks[a].arena < |h.arenas| && CanGrow(h, a, size)
  {
    Split(AbsorbRight(h, a, RightOf(h, a).value), a, size)
  }

  // ---- What each step keeps --------------------------------------------------------------

  /** Distinct blocks occupy disjoint addresses. */
  lemma Disjoint(arenas: seq<Arena>, blocks: Blocks, a: int, b: int)
    requires Tiled(arenas, blocks) && a in blocks && b in blocks && a != b
    ensures Past(a, blocks[a]) <= b || Past(b, blocks[b]) <= a
  {
    assert Ordered(blocks, a, b) && Ordered(blocks, b, a);
  }

  lemma JoinedTiled(arenas: seq<Arena>, blocks: Blocks, a: int, r: int)
    requires Tiled(arenas, blocks) && Adjacent(blocks, a, r)
    ensures Tiled(arenas, Joined(blocks, a, r))
    ensures Past(a, Joined(blocks, a, r)[a]) == Past(r, blocks[r])
  {
    var joined := Joined(blocks, a, r);
    assert BlockOk(arenas, blocks, a) && BlockOk(arenas, blocks, r);
    forall x | x in joined ensures BlockOk(arenas, joined, x) {
      assert BlockOk(arenas, blocks, x);
      if x != a && Past(x, blocks[x]) == r {
        Disjoint(arenas, blocks, x, a);
      }
    }
    forall x, y | x in joined && y in joined ensures Ordered(joined, x, y) {
      assert Ordered(blocks, x, y) && Ordered(blocks, r, y);
    }
  }

  lemma SplitTiled(h: Heap, a: int, size: int)
    requires Tiled(h.arenas, h.blocks) && a in h.blocks
    requires LINKS <= size <= h.blocks[a].size
    ensures Tiled(h.arenas, Split(h, a, size).blocks)
    ensures h.blocks[a].size - size >= MIN_BLOCK ==> Past(a, h.blocks[a].(size := size)) !in h.blocks
  {
    assert BlockOk(h.arenas, h.blocks, a);
    var rest := Past(a, h.blocks[a].(size := size));
    if h.blocks[a].size - size >= MIN_BLOCK {
      if rest in h.blocks {
        assert BlockOk(h.arenas, h.blocks, rest);
        Disjoint(h.arenas, h.blocks, a, rest);
      }
      var split := Split(h, a, size).blocks;
      forall x | x in split ensures BlockOk(h.arenas, split, x) {
        if x != rest {
          assert BlockOk(h.arenas, h.blocks, x);
        }
      }
      forall x, y | x in split && y in split ensures Ordered(split, x, y) {
        var x', y' := if x == rest then a else x, if y == rest then a else y;
        assert Ordered(h.blocks, x', y') && Ordered(h.blocks, y', x');
      }
    }
  }

  lemma MarkedTiled(arenas: seq<Arena>, blocks: Blocks, a: int, free: bool)
    requires Tiled(arenas, blocks) && a in blocks
    ensures Tiled(arenas, Marked(blocks, a, free))
  {
    var marked := Marked(blocks, a, free);
    forall x | x in marked ensures BlockOk(arenas, marked, x) {
      assert BlockOk(arenas, blocks, x);
    }
    forall x, y | x in marked && y in marked ensures Ordered(marked, x, y) {
      assert Ordered(blocks, x, y);
    }
  }

  /** In a tiled arena every block but the first has a left neighbour, and only one. */
  lemma FindLeft(arenas: seq<Arena>, blocks: Blocks, a: int, from: int) returns (p: int)
    requires Tiled(arenas, blocks) && a in blocks && from in blocks
    requires blocks[from].arena == blocks[a].arena && from < a
    ensures Adjacent(blocks, p, a)
    decreases a - from
  {
    assert BlockOk(arenas, blocks, from) && BlockOk(arenas, blocks, a);
    if Past(from, blocks[from]) == a {
      p := from;
    } else {
      assert Ordered(blocks, from, a);
      p := FindLeft(arenas, blocks, a, Past(from, blocks[from]));
    }
  }

  lemma LeftIsUnique(arenas: seq<Arena>, blocks: Blocks, p: int, q: int, a: int)
    requires Tiled(arenas, blocks) && Adjacent(blocks, p, a) && Adjacent(blocks, q, a)
    ensures p == q
  {
    assert BlockOk(arenas, blocks, p) && BlockOk(arenas, blocks, q);
    if p != q {
      Disjoint(arenas, blocks, p, q);
    }
  }

  lemma NeighbourFacts(h: Heap, a: int)
    requires Tiled(h.arenas, h.blocks) && a in h.blocks
    ensures BlockOk(h.arenas, h.blocks, a)
    ensures RightOf(h, a).Some? ==> Adjacent(h.blocks, a, RightOf(h, a).value)
    ensures forall r | Adjacent(h.blocks, a, r) :: RightOf(h, a) == Some(r)
    ensures LeftOf(h, a).Some? ==> Adjacent(h.blocks, LeftOf(h, a).value, a)
    ensures forall p | Adjacent(h.blocks, p, a) :: LeftOf(h, a) == Some(p)
    ensures LeftOf(h, a).None? <==> a == h.arenas[h.blocks[a].arena].base
  {
    assert BlockOk(h.arenas, h.blocks, a);
    var arena := h.arenas[h.blocks[a].arena];
    forall r | Adjacent(h.blocks, a, r) ensures RightOf(h, a) == Some(r) {
      assert BlockOk(h.arenas, h.blocks, r);
    }
    forall p | Adjacent(h.blocks, p, a) ensures LeftOf(h, a) == Some(p) && a != arena.base {
      assert BlockOk(h.arenas, h.blocks, p);
      LeftIsUnique(h.arenas, h.blocks, p, LeftOf(h, a).value, a);
    }
    if a != arena.base {
      var p := FindLeft(h.arenas, h.blocks, a, arena.base);
    }
  }

  /** After joining, a block's neighbours are those of the pair it replaces. */
  lemma JoinedAdjacent(arenas: seq<Arena>, blocks: Blocks, a: int, r: int, x: int, y: int)
    requires Tiled(arenas, blocks) && Adjacent(blocks, a, r)
    requires Adjacent(Joined(blocks, a, r), x, y)
    ensures Adjacent(blocks, if x == a then r else x, y)
    ensures x != r && y != r
  {
    assert BlockOk(arenas, blocks, a) && BlockOk(arenas, blocks, r) && BlockOk(arenas, blocks, x);
  }

  /** Free blocks touch only where the block a is involved. */
  ghost predicate OnlyFreeBeside(blocks: Blocks, a: int) {
    forall x, y | Adjacent(blocks, x, y) && x != a && y != a :: !(blocks[x].free && blocks[y].free)
  }

  /** The list holds every free block except a. */
  ghost predicate ListsAllBut(blocks: Blocks, list: seq<int>, a: int) {
    && ListsFree(blocks, list)
    && a !in list
    && forall x | x in blocks && blocks[x].free && x != a :: x in list
  }

  /** The test for growing in place, in terms of where blocks lie. */
  lemma CanGrowIs(h: Heap, a: int, size: int)
    requires Tiled(h.arenas, h.blocks) && a in h.blocks
    ensures h.blocks[a].arena < |h.arenas| && (CanGrow(h, a, size) <==> RoomBeside(h.blocks, a, size))
  {
    NeighbourFacts(h, a);
    if CanGrow(h, a, size) {
      var r := RightOf(h, a).value;
      assert Adjacent(h.blocks, a, r) && h.blocks[r].free;
    }
  }

  /** Joining a with its free right neighbour leaves a beside no free block on the right. */
  lemma AbsorbedKeeps(h: Heap, a: int, r: int)
    requires Tiled(h.arenas, h.blocks) && Aligned(h.arenas, h.blocks)
    requires Adjacent(h.blocks, a, r) && h.blocks[r].free
    requires OnlyFreeBeside(h.blocks, a) && ListsAllBut(h.blocks, h.list, a)
    ensures var h' := AbsorbRight(h, a, r);
            && Tiled(h'.arenas, h'.blocks) && Aligned(h'.arenas, h'.blocks)
            && OnlyFreeBeside(h'.blocks, a) && ListsAllBut(h'.blocks, h'.list, a)
            && (forall y | Adjacent(h'.blocks, a, y) :: !h'.blocks[y].free)
            && (forall x | Adjacent(h'.blocks, x, a) :: Adjacent(h.blocks, x, a))
  {
    var h' := AbsorbRight(h, a, r);
    JoinedTiled(h.arenas, h.blocks, a, r);
    JoinedAligned(h.arenas, h.blocks, a, r);
    WithoutMembers(h.list, r);
    assert BlockOk(h.arenas, h.blocks, a) && BlockOk(h.arenas, h.blocks, r);
    forall x, y | Adjacent(h'.blocks, x, y)
      ensures y == a ==> Adjacent(h.blocks, x, a)
      ensures y != a ==> !(h'.blocks[x].free && h'.blocks[y].free) || x == a
      ensures x == a ==> y != a && !h'.blocks[y].free
    {
      JoinedAdjacent(h.arenas, h.blocks, a, r, x, y);
    }
  }

  /** The state between the two halves of a free. */
  ghost predicate HalfReleased(h: Heap, a: int) {
    && Tiled(h.arenas, h.blocks) && Aligned(h.arenas, h.blocks) && NoEmptyArena(h.arenas)
    && a in h.blocks && h.blocks[a].free
    && OnlyFreeBeside(h.blocks, a) && ListsAllBut(h.blocks, h.list, a)
    && (forall y | Adjacent(h.blocks, a, y) :: !h.blocks[y].free)
  }

  lemma ReleaseRightKeeps(h: Heap, a: int)
    requires Valid(h) && a in h.blocks && !h.blocks[a].free
    ensures h.blocks[a].arena < |h.arenas| && HalfReleased(ReleaseRight(h, a), a)
  {
    assert BlockOk(h.arenas, h.blocks, a);
    var marked := Mark(h, a, true);
    MarkedTiled(h.arenas, h.blocks, a, true);
    MarkedAligned(h.arenas, h.blocks, a, true);
    forall x, y | Adjacent(marked.blocks, x, y) ensures Adjacent(h.blocks, x, y) {
    }
    NeighbourFacts(marked, a);
    var right := RightOf(marked, a);
    if IsFreeBlock(marked, right) {
      AbsorbedKeeps(marked, a, right.value);
    }
  }

  lemma ReleaseLeftKeeps(h: Heap, a: int)
    requires HalfReleased(h, a)
    ensures Valid(ReleaseLeft(h, a))
  {
    NeighbourFacts(h, a);
    var left := LeftOf(h, a);
    if IsFreeBlock(h, left) {
      var p := left.value;
      JoinedTiled(h.arenas, h.blocks, p, a);
      JoinedAligned(h.arenas, h.blocks, p, a);
      WithoutMembers(h.list, p);
      assert BlockOk(h.arenas, h.blocks, p);
      var joined := Joined(h.blocks, p, a);
      forall x, y | Adjacent(joined, x, y) ensures !(joined[x].free && joined[y].free) {
        JoinedAdjacent(h.arenas, h.blocks, p, a, x, y);
      }
    }
  }

  /** Freeing a live block keeps the invariant. */
  lemma ReleaseValid(h: Heap, a: int)
    requires Valid(h) && a in h.blocks && !h.blocks[a].free
    ensures h.blocks[a].arena < |h.arenas| && Valid(Release(h, a))
  {
    ReleaseRightKeeps(h, a);
    ReleaseLeftKeeps(ReleaseRight(h, a), a);
  }

  lemma SplitAdjacent(h: Heap, a: int, size: int, x: int, y: int)
    requires Tiled(h.arenas, h.blocks) && a in h.blocks && LINKS <= size
    requires h.blocks[a].size - size >= MIN_BLOCK
    requires Adjacent(Split(h, a, size).blocks, x, y)
    ensures var rest := Past(a, h.blocks[a].(size := size));
            if x == rest then Adjacent(h.blocks, a, y) && y != rest && y != a
            else if y == rest then x == a
            else x != a && Adjacent(h.blocks, x, y)
  {
    var rest := Past(a, h.blocks[a].(size := size));
    SplitTiled(h, a, size);
    var split := Split(h, a, size);
    assert BlockOk(h.arenas, h.blocks, a) && BlockOk(split.arenas, split.blocks, x);
    assert BlockOk(split.arenas, split.blocks, a) && BlockOk(split.arenas, split.blocks, rest);
    if y == rest && x != a {
      LeftIsUnique(split.arenas, split.blocks, x, a, rest);
    }
  }

  lemma JoinedAligned(arenas: seq<Arena>, blocks: Blocks, a: int, r: int)
    requires Aligned(arenas, blocks) && a in blocks && r in blocks
    ensures Aligned(arenas, Joined(blocks, a, r))
  {
    var joined := Joined(blocks, a, r);
    assert BlockAligned(blocks, a) && BlockAligned(blocks, r);
    forall x | x in joined ensures BlockAligned(joined, x) {
      assert BlockAligned(blocks, x);
    }
  }

  lemma SplitAligned(h: Heap, a: int, size: int)
    requires Aligned(h.arenas, h.blocks) && a in h.blocks && size % ALIGNMENT == 0
    ensures Aligned(h.arenas, Split(h, a, size).blocks)
  {
    var split := Split(h, a, size).blocks;
    assert BlockAligned(h.blocks, a);
    forall x | x in split ensures BlockAligned(split, x) {
      assert x in h.blocks ==> BlockAligned(h.blocks, x);
    }
  }

  lemma MarkedAligned(arenas: seq<Arena>, blocks: Blocks, a: int, free: bool)
    requires Aligned(arenas, blocks) && a in blocks
    ensures Aligned(arenas, Marked(blocks, a, free))
  {
    forall x | x in blocks ensures BlockAligned(Marked(blocks, a, free), x) {
      assert BlockAligned(blocks, x);
    }
  }

  /** A block of at least `size` bytes with no free block on its right may be split: the
      remainder is listed and touches no free block, unless a itself is free. */
  lemma SplitKeeps(h: Heap, a: int, size: int)
    requires Tiled(h.arenas, h.blocks) && Aligned(h.arenas, h.blocks) && a in h.blocks
    requires LINKS <= size <= h.blocks[a].size && size % ALIGNMENT == 0
    requires OnlyFreeBeside(h.blocks, a) && ListsAllBut(h.blocks, h.list, a)
    requires forall y | Adjacent(h.blocks, a, y) :: !h.blocks[y].free
    ensures var h' := Split(h, a, size);
            && Tiled(h'.arenas, h'.blocks) && Aligned(h'.arenas, h'.blocks)
            && OnlyFreeBeside(h'.blocks, a) && ListsAllBut(h'.blocks, h'.list, a)
            && a in h'.blocks && size <= h'.blocks[a].size < size + 48
  {
    SplitTiled(h, a, size);
    SplitAligned(h, a, size);
    var h' := Split(h, a, size);
    if h.blocks[a].size - size >= MIN_BLOCK {
      forall x, y | Adjacent(h'.blocks, x, y) && x != a && y != a
        ensures !(h'.blocks[x].free && h'.blocks[y].free)
      {
        SplitAdjacent(h, a, size, x, y);
      }
    }
  }

  /** Serving a request from a listed free block keeps the invariant. */
  lemma ReuseValid(h: Heap, a: int, size: int)
    requires Valid(h) && a in h.list
    requires LINKS <= size <= h.blocks[a].size && size % ALIGNMENT == 0
    ensures Valid(Reuse(h, a, size))
    ensures var b := Reuse(h, a, size).blocks[a]; size <= b.size < size + 48 && !b.free
  {
    var h0 := h.(list := Without(h.list, a));
    WithoutMembers(h.list, a);
    SplitKeeps(h0, a, size);
    var h1 := Split(h0, a, size);
    MarkedTiled(h1.arenas, h1.blocks, a, false);
    MarkedAligned(h1.arenas, h1.blocks, a, false);
    var h2 := Mark(h1, a, false);
    assert forall x, y :: Adjacent(h2.blocks, x, y) ==> Adjacent(h1.blocks, x, y);
  }

  /** Growing in place keeps the invariant and reaches the size. */
  lemma GrowValid(h: Heap, a: int, size: int)
    requires Valid(h) && a in h.blocks && !h.blocks[a].free && h.blocks[a].arena < |h.arenas|
    requires CanGrow(h, a, size) && h.blocks[a].size <= size && size % ALIGNMENT == 0
    ensures Valid(Grow(h, a, size))
    ensures var b := Grow(h, a, size).blocks[a]; size <= b.size < size + 48 && !b.free
  {
    NeighbourFacts(h, a);
    var r := RightOf(h, a).value;
    AbsorbedKeeps(h, a, r);
    SplitKeeps(AbsorbRight(h, a, r), a, size);
  }

  ghost predicate FreshRegion(h: Heap, r: Region) {
    && 0 < r.base && r.base % ALIGNMENT == 0
    && forall i | 0 <= i < |h.arenas| ::
         r.base + r.size <= h.arenas[i].base || h.arenas[i].base + h.arenas[i].size <= r.base
  }

  /** A region with no mapped word is disjoint from every arena. */
  lemma RegionIsFresh(mapped: set<int>, h: Heap, r: Region)
    requires ArenasOk(h.arenas) && Aligned(h.arenas, h.blocks) && NoEmptyArena(h.arenas)
    requires forall i | 0 <= i < |h.arenas| :: WordsOf(Region(h.arenas[i].base, h.arenas[i].size)) <= mapped
    requires 0 < r.base && r.base % ALIGNMENT == 0 && 0 < r.size && WordsOf(r) !! mapped
    ensures FreshRegion(h, r)
  {
    forall i | 0 <= i < |h.arenas|
      ensures r.base + r.size <= h.arenas[i].base || h.arenas[i].base + h.arenas[i].size <= r.base
    {
      var q := Region(h.arenas[i].base, h.arenas[i].size);
      assert ArenaAligned(h.arenas[i]) && WordsOf(q) <= mapped;
      RegionsApart(r, q);
    }
  }

  lemma OpenTiled(h: Heap, r: Region)
    requires Tiled(h.arenas, h.blocks) && FreshRegion(h, r) && 0 <= r.size
    ensures Tiled(OpenArena(h, r).arenas, h.blocks)
  {
    var grown := OpenArena(h, r);
    forall x | x in h.blocks ensures BlockOk(grown.arenas, h.blocks, x) {
      assert BlockOk(h.arenas, h.blocks, x);
    }
  }

  /** Every block lies clear of the unused end of the last arena. */
  lemma ClearOfUnused(h: Heap, size: int, x: int)
    requires Tiled(h.arenas, h.blocks) && HasRoom(h, size) && LINKS <= size && x in h.blocks
    ensures var a := h.arenas[|h.arenas| - 1].End();
            && (Past(x, h.blocks[x]) <= a || a + OVERHEAD + size <= x) && x != a
            && BlockOk(Carve(h, size).arenas, Carve(h, size).blocks, x)
  {
    assert BlockOk(h.arenas, h.blocks, x);
  }

  lemma CarveTiled(h: Heap, size: int)
    requires Tiled(h.arenas, h.blocks) && HasRoom(h, size) && LINKS <= size
    ensures Tiled(Carve(h, size).arenas, Carve(h, size).blocks)
    ensures h.arenas[|h.arenas| - 1].End() !in h.blocks
  {
    var a := h.arenas[|h.arenas| - 1].End();
    var carved := Carve(h, size);
    forall x | x in h.blocks
      ensures Past(x, h.blocks[x]) <= a || a + OVERHEAD + size <= x
      ensures x != a && BlockOk(carved.arenas, carved.blocks, x)
    {
      ClearOfUnused(h, size, x);
    }
    forall x, y | x in carved.blocks && y in carved.blocks ensures Ordered(carved.blocks, x, y) {
      CarveOrdered(h, size, x, y);
    }
    assert ArenasOk(carved.arenas);
    assert BlockOk(carved.arenas, carved.blocks, a);
  }

  lemma CarveOrdered(h: Heap, size: int, x: int, y: int)
    requires Tiled(h.arenas, h.blocks) && HasRoom(h, size) && LINKS <= size
    requires x in Carve(h, size).blocks && y in Carve(h, size).blocks
    ensures Ordered(Carve(h, size).blocks, x, y)
  {
    var a := h.arenas[|h.arenas| - 1].End();
    if x != a {
      ClearOfUnused(h, size, x);
    }
    if y != a {
      ClearOfUnused(h, size, y);
    }
    if x != a && y != a {
      assert Ordered(h.blocks, x, y);
    }
  }

  lemma CarveAligned(h: Heap, size: int)
    requires Aligned(h.arenas, h.blocks) && HasRoom(h, size) && size % ALIGNMENT == 0
    ensures Aligned(Carve(h, size).arenas, Carve(h, size).blocks)
  {
    assert ArenaAligned(h.arenas[|h.arenas| - 1]);
    var carved := Carve(h, size);
    forall x | x in carved.blocks ensures BlockAligned(carved.blocks, x) {
      assert x in h.blocks ==> BlockAligned(h.blocks, x);
    }
    forall i | 0 <= i < |carved.arenas| ensures ArenaAligned(carved.arenas[i]) {
      assert ArenaAligned(h.arenas[i]);
    }
  }

  /** Carving from the last arena, old or just opened, keeps the invariant. */
  lemma CarveValid(h: Heap, size: int)
    requires Roomy(h, size) && LINKS <= size && size % ALIGNMENT == 0
    ensures Valid(Carve(h, size))
    ensures h.arenas[|h.arenas| - 1].End() !in h.blocks
  {
    var a := h.arenas[|h.arenas| - 1].End();
    var carved := Carve(h, size);
    CarveTiled(h, size);
    CarveAligned(h, size);
    forall x, y | Adjacent(carved.blocks, x, y)
      ensures !(carved.blocks[x].free && carved.blocks[y].free)
    {
      assert x != a && y != a ==> Adjacent(h.blocks, x, y);
    }
    assert forall i | 0 <= i < |h.arenas| - 1 :: h.arenas[..|h.arenas| - 1][i] == h.arenas[i];
    assert BlockOk(carved.arenas, carved.blocks, a);
  }
}
