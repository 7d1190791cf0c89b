/** The general path in memory: boundary tags, arenas and the intrusive free list, rewritten
    in place, and proved to carry out the operations of HeapModel. */
module GeneralPath {
  import opened Machine
  import opened BlockTags
  import opened FreeLists
  import opened HeapModel

  /** The header word of a carries its size and flag, and the footer word repeats the size. */
  ghost predicate TagOk(words: Words, blocks: Blocks, a: int)
    requires a in blocks
  {
    var b := blocks[a];
    && a in words && words[a] == Tag(b.size, b.free)
    && FooterOf(a, b.size) in words && words[FooterOf(a, b.size)] == b.size
  }

  ghost predicate Tagged(words: Words, blocks: Blocks) {
    forall a {:trigger TagOk(words, blocks, a)} | a in blocks :: TagOk(words, blocks, a)
  }

  /** The words and the list head spell out the blocks and the free list of h. */
  ghost predicate Spelled(words: Words, head: int, h: Heap) {
    Tagged(words, h.blocks) && Linked(words, head, h.list)
  }

  ghost predicate IsFooter(blocks: Blocks, w: int) {
    exists a :: a in blocks && FooterOf(a, blocks[a].size) == w
  }

  /** The words the heap keeps for itself: headers, footers and links. */
  ghost predicate HeapWord(h: Heap, w: int) {
    w in h.blocks || IsFooter(h.blocks, w) || IsLinkWord(h.list, w)
  }

  /** A heap stays spelled out under any write that misses its own words. */
  lemma SpelledFrame(before: Words, after: Words, head: int, h: Heap)
    requires Spelled(before, head, h)
    requires forall w | w in before && HeapWord(h, w) :: w in after && after[w] == before[w]
    ensures Spelled(after, head, h)
  {
    forall a | a in h.blocks ensures TagOk(after, h.blocks, a) {
      assert TagOk(before, h.blocks, a);
      assert IsFooter(h.blocks, FooterOf(a, h.blocks[a].size));
      assert HeapWord(h, a) && HeapWord(h, FooterOf(a, h.blocks[a].size));
    }
    forall w | w in before && IsLinkWord(h.list, w) ensures w in after && after[w] == before[w] {
      assert HeapWord(h, w);
    }
    LinkedFrame(before, after, head, h.list);
  }

  /** The heap's own words lie in its blocks, and outside the payloads of live ones. */
  lemma HeapWordInBlock(h: Heap, w: int) returns (a: int)
    requires Tiled(h.arenas, h.blocks) && ListsFree(h.blocks, h.list) && HeapWord(h, w)
    ensures a in h.blocks && a <= w < Past(a, h.blocks[a])
    ensures !h.blocks[a].free ==> w == a || w == FooterOf(a, h.blocks[a].size)
  {
    if w in h.blocks {
      a := w;
    } else if IsLinkWord(h.list, w) {
      a := if w - HEADER in h.list then w - HEADER else w - HEADER - 8;
    } else {
      a :| a in h.blocks && FooterOf(a, h.blocks[a].size) == w;
    }
    assert BlockOk(h.arenas, h.blocks, a);
  }

  ghost predicate Mapped(words: Words, arenas: seq<Arena>) {
    forall i | 0 <= i < |arenas| :: WordsOf(Region(arenas[i].base, arenas[i].size)) <= words.Keys
  }

  /** The words and the list head spell out the heap value h, apart from the flags that
      only hold between calls. */
  ghost predicate Represents(words: Words, head: int, h: Heap) {
    && Tiled(h.arenas, h.blocks) && Aligned(h.arenas, h.blocks)
    && Spelled(words, head, h) && Mapped(words, h.arenas) && ListsFree(h.blocks, h.list)
  }

  /** Nothing outside [lo, hi) and the links of the listed blocks has changed. */
  ghost predicate ChangedWithin(before: Words, after: Words, lo: int, hi: int, list: seq<int>) {
    && after.Keys == before.Keys
    && forall w | w in before && !(lo <= w < hi) && !IsLinkWord(list, w) :: after[w] == before[w]
  }

  /** The words of a block's payload. */
  ghost predicate InPayload(blocks: Blocks, a: int, w: int) {
    a in blocks && a + HEADER <= w < a + HEADER + blocks[a].size
  }

  /** What a block's tag says, read through the accessors. */
  lemma ReadTag(words: Words, blocks: Blocks, a: int)
    requires a in blocks && TagOk(words, blocks, a) && BlockAligned(blocks, a)
    ensures GetSize(words[a]) == blocks[a].size && IsFree(words[a]) == blocks[a].free
  {
    TagPacking(blocks[a].size, blocks[a].free, 0, true);
  }

  // ---- Writes that miss a block ----------------------------------------------------------

  /** Link words lie inside the payloads of listed blocks, so list surgery disturbs no tag. */
  lemma TagsSurviveLinks(before: Words, after: Words, arenas: seq<Arena>, blocks: Blocks, list: seq<int>)
    requires Tiled(arenas, blocks) && Tagged(before, blocks)
    requires forall x | x in list :: x in blocks
    requires OnlyLinksChanged(before, after, list)
    ensures Tagged(after, blocks)
  {
    forall a | a in blocks ensures TagOk(after, blocks, a) {
      assert TagOk(before, blocks, a);
      TagIsNotLink(arenas, blocks, list, a);
    }
  }

  lemma TagIsNotLink(arenas: seq<Arena>, blocks: Blocks, list: seq<int>, a: int)
    requires Tiled(arenas, blocks) && a in blocks
    requires forall x | x in list :: x in blocks
    ensures !IsLinkWord(list, a) && !IsLinkWord(list, FooterOf(a, blocks[a].size))
  {
    assert BlockOk(arenas, blocks, a);
    var f := FooterOf(a, blocks[a].size);
    forall x | x in {a - HEADER, a - HEADER - 8, f - HEADER, f - HEADER - 8} && x in list ensures false {
      assert BlockOk(arenas, blocks, x);
      if x != a {
        Disjoint(arenas, blocks, x, a);
      }
    }
  }

  /** A live block's payload holds no link word, so list surgery disturbs no client data. */
  lemma PayloadIsNotLink(h: Heap, a: int, w: int)
    requires Tiled(h.arenas, h.blocks) && ListsFree(h.blocks, h.list)
    requires a !in h.list && InPayload(h.blocks, a, w)
    ensures !IsLinkWord(h.list, w)
  {
    forall x | x in {w - HEADER, w - HEADER - 8} && x in h.list ensures false {
      assert BlockOk(h.arenas, h.blocks, x);
      Disjoint(h.arenas, h.blocks, x, a);
    }
  }

  /** Blocks clear of [lo, hi) keep their tags when only that range and links change. */
  lemma TagSurvivesRange(before: Words, after: Words, arenas: seq<Arena>, blocks: Blocks, lo: int, hi: int, x: int)
    requires Tiled(arenas, blocks) && x in blocks && TagOk(before, blocks, x)
    requires Past(x, blocks[x]) <= lo || hi <= x
    requires after.Keys == before.Keys
    requires forall w | w in before && !(lo <= w < hi) :: after[w] == before[w]
    ensures TagOk(after, blocks, x)
  {
    assert BlockOk(arenas, blocks, x);
  }

  /** The list survives writes into [lo, hi) when its members are clear of that range. */
  lemma LinksSurviveRange(before: Words, after: Words, head: int, h: Heap, lo: int, hi: int)
    requires Tiled(h.arenas, h.blocks) && Linked(before, head, h.list)
    requires forall x | x in h.list :: x in h.blocks && (Past(x, h.blocks[x]) <= lo || hi <= x)
    requires after.Keys == before.Keys
    requires forall w | w in before && !(lo <= w < hi) :: after[w] == before[w]
    ensures Linked(after, head, h.list)
  {
    forall w | w in before && IsLinkWord(h.list, w) ensures after[w] == before[w] {
      var x := if w - HEADER in h.list then w - HEADER else w - HEADER - 8;
      assert BlockOk(h.arenas, h.blocks, x);
    }
    LinkedFrame(before, after, head, h.list);
  }

  /** Every word of a block is mapped. */
  lemma BlockMapped(words: Words, h: Heap, a: int, w: int)
    requires Tiled(h.arenas, h.blocks) && Mapped(words, h.arenas)
    requires a in h.blocks && a <= w < Past(a, h.blocks[a]) && w % 8 == 0
    ensures w in words
  {
    assert BlockOk(h.arenas, h.blocks, a);
    var arena := h.arenas[h.blocks[a].arena];
    assert w in WordsOf(Region(arena.base, arena.size));
  }

  // ---- The effect of each write on the representation ------------------------------------

  lemma MarkedTagged(words: Words, h: Heap, a: int, free: bool)
    requires Tiled(h.arenas, h.blocks) && Tagged(words, h.blocks) && a in h.blocks
    requires BlockAligned(h.blocks, a)
    ensures a in words
    ensures Tagged(words[a := Tag(h.blocks[a].size, free)], Marked(h.blocks, a, free))
  {
    assert TagOk(words, h.blocks, a) && BlockOk(h.arenas, h.blocks, a);
    var after := words[a := Tag(h.blocks[a].size, free)];
    var marked := Marked(h.blocks, a, free);
    assert TagOk(after, marked, a);
    forall x | x in marked && x != a ensures TagOk(after, marked, x) {
      assert TagOk(words, h.blocks, x);
      Disjoint(h.arenas, h.blocks, x, a);
      TagSurvivesRange(words, after, h.arenas, h.blocks, a, a + 8, x);
    }
  }

  lemma MarkedRepresents(words: Words, head: int, h: Heap, a: int, free: bool)
    requires Represents(words, head, h) && a in h.blocks && a !in h.list
    ensures a in words
    ensures Represents(words[a := Tag(h.blocks[a].size, free)], head, Mark(h, a, free))
  {
    assert BlockAligned(h.blocks, a);
    MarkedTagged(words, h, a, free);
    MarkedTiled(h.arenas, h.blocks, a, free);
    MarkedAligned(h.arenas, h.blocks, a, free);
    TagIsNotLink(h.arenas, h.blocks, h.list, a);
    LinkedFrame(words, words[a := Tag(h.blocks[a].size, free)], head, h.list);
  }

  /** Growing a over r, once r is off the list. */
  ghost function JoinWords(words: Words, a: int, size: int, free: bool): Words {
    words[a := Tag(size, free)][FooterOf(a, size) := size]
  }

  lemma JoinedRepresents(words: Words, head: int, h: Heap, a: int, r: int)
    requires Represents(words, head, h) && Adjacent(h.blocks, a, r)
    requires a !in h.list && r !in h.list
    ensures a in words
    ensures var size := h.blocks[a].size + OVERHEAD + h.blocks[r].size;
            && FooterOf(a, size) in words
            && Represents(JoinWords(words, a, size, h.blocks[a].free), head, h.(blocks := Joined(h.blocks, a, r)))
  {
    var size := h.blocks[a].size + OVERHEAD + h.blocks[r].size;
    JoinedTagged(words, h, a, r);
    JoinedTiled(h.arenas, h.blocks, a, r);
    JoinedAligned(h.arenas, h.blocks, a, r);
    var hi := Past(r, h.blocks[r]);
    forall x | x in h.list ensures x in h.blocks && (Past(x, h.blocks[x]) <= a || hi <= x) {
      ClearOfPair(h, a, r, x);
    }
    assert BlockOk(h.arenas, h.blocks, a) && BlockOk(h.arenas, h.blocks, r);
    LinksSurviveRange(words, JoinWords(words, a, size, h.blocks[a].free), head, h, a, hi);
  }

  lemma ClearOfPair(h: Heap, a: int, r: int, x: int)
    requires Tiled(h.arenas, h.blocks) && Adjacent(h.blocks, a, r)
    requires x in h.blocks && x != a && x != r
    ensures Past(x, h.blocks[x]) <= a || Past(r, h.blocks[r]) <= x
  {
    Disjoint(h.arenas, h.blocks, x, a);
    Disjoint(h.arenas, h.blocks, x, r);
    assert BlockOk(h.arenas, h.blocks, x);
  }

  lemma JoinedTagged(words: Words, h: Heap, a: int, r: int)
    requires Tiled(h.arenas, h.blocks) && Tagged(words, h.blocks) && Adjacent(h.blocks, a, r)
    requires Aligned(h.arenas, h.blocks)
    ensures a in words
    ensures var size := h.blocks[a].size + OVERHEAD + h.blocks[r].size;
            && FooterOf(a, size) in words
            && Tagged(JoinWords(words, a, size, h.blocks[a].free), Joined(h.blocks, a, r))
  {
    assert TagOk(words, h.blocks, a) && BlockOk(h.arenas, h.blocks, a);
    assert TagOk(words, h.blocks, r) && BlockOk(h.arenas, h.blocks, r);
    assert BlockAligned(h.blocks, a) && BlockAligned(h.blocks, r);
    var size := h.blocks[a].size + OVERHEAD + h.blocks[r].size;
    var after := JoinWords(words, a, size, h.blocks[a].free);
    var joined := Joined(h.blocks, a, r);
    forall x | x in joined ensures TagOk(after, joined, x) {
      if x != a {
        assert TagOk(words, h.blocks, x);
        ClearOfPair(h, a, r, x);
        TagSurvivesRange(words, after, h.arenas, h.blocks, a, Past(r, h.blocks[r]), x);
      }
    }
  }

  /** Shrinking a to `size` bytes and constructing the remainder's tags. */
  ghost function SplitWords(words: Words, a: int, b: Block, size: int): Words {
    var rest := a + OVERHEAD + size;
    var restSize := b.size - size - OVERHEAD;
    words[a := Tag(size, b.free)][FooterOf(a, size) := size]
         [rest := Tag(restSize, true)][FooterOf(rest, restSize) := restSize]
  }

  lemma OffsetMapped(words: Words, h: Heap, a: int, offset: int)
    requires Tiled(h.arenas, h.blocks) && Aligned(h.arenas, h.blocks) && Mapped(words, h.arenas)
    requires a in h.blocks && 0 <= offset < OVERHEAD + h.blocks[a].size && offset % 8 == 0
    ensures a + offset in words
  {
    assert BlockAligned(h.blocks, a);
    AlignedIsWord(a);
    EightsAdd(a, offset);
    BlockMapped(words, h, a, a + offset);
  }

  /** The remainder's words are mapped and clear of everything listed. */
  lemma SplitMapped(words: Words, h: Heap, a: int, size: int)
    requires Tiled(h.arenas, h.blocks) && Aligned(h.arenas, h.blocks)
    requires Tagged(words, h.blocks) && Mapped(words, h.arenas)
    requires a in h.blocks && LINKS <= size && size % ALIGNMENT == 0 && h.blocks[a].size - size >= MIN_BLOCK
    ensures var rest := a + OVERHEAD + size;
            && a in words && FooterOf(a, size) in words && rest in words
            && FooterOf(rest, h.blocks[a].size - size - OVERHEAD) in words
            && NextLink(rest) in words && PrevLink(rest) in words
  {
    assert TagOk(words, h.blocks, a) && BlockAligned(h.blocks, a);
    HeaderSums(size);
    HeaderSums(h.blocks[a].size);
    OffsetMapped(words, h, a, HEADER + size);
    OffsetMapped(words, h, a, OVERHEAD + size);
    OffsetMapped(words, h, a, OVERHEAD + size + HEADER);
    OffsetMapped(words, h, a, OVERHEAD + size + HEADER + 8);
    OffsetMapped(words, h, a, HEADER + h.blocks[a].size);
  }

  lemma HeaderSums(size: int)
    requires size % ALIGNMENT == 0
    ensures (HEADER + size) % 8 == 0 && (OVERHEAD + size) % 8 == 0
    ensures (OVERHEAD + size + HEADER) % 8 == 0 && (OVERHEAD + size + HEADER + 8) % 8 == 0
  {
    AlignedIsWord(size);
    EightsAdd(HEADER, size);
    EightsAdd(OVERHEAD, size);
    EightsAdd(OVERHEAD + size, HEADER);
    EightsAdd(OVERHEAD + size + HEADER, 8);
  }

  lemma SplitTagged(words: Words, h: Heap, a: int, size: int)
    requires Tiled(h.arenas, h.blocks) && Aligned(h.arenas, h.blocks)
    requires Tagged(words, h.blocks) && Mapped(words, h.arenas)
    requires a in h.blocks && LINKS <= size && size % ALIGNMENT == 0 && h.blocks[a].size - size >= MIN_BLOCK
    ensures a in words
    ensures Tagged(SplitWords(words, a, h.blocks[a], size), Split(h, a, size).blocks)
  {
    assert TagOk(words, h.blocks, a) && BlockOk(h.arenas, h.blocks, a);
    var after := SplitWords(words, a, h.blocks[a], size);
    var rest := a + OVERHEAD + size;
    var split := Split(h, a, size).blocks;
    SplitMapped(words, h, a, size);
    assert BlockAligned(h.blocks, a);
    forall x | x in split ensures TagOk(after, split, x) {
      if x != a && x != rest {
        assert TagOk(words, h.blocks, x);
        Disjoint(h.arenas, h.blocks, x, a);
        TagSurvivesRange(words, after, h.arenas, h.blocks, a, Past(a, h.blocks[a]), x);
      }
    }
  }

  /** The remainder is constructed but not yet listed. */
  lemma SplitRepresents(words: Words, head: int, h: Heap, a: int, size: int)
    requires Represents(words, head, h) && a in h.blocks && a !in h.list
    requires LINKS <= size && size % ALIGNMENT == 0 && h.blocks[a].size - size >= MIN_BLOCK
    ensures a in words
    ensures var rest := a + OVERHEAD + size;
            var after := SplitWords(words, a, h.blocks[a], size);
            && after.Keys == words.Keys
            && rest !in h.blocks
            && Represents(after, head, Split(h, a, size).(list := h.list))
            && forall x | x in h.list :: Apart(rest, x)
  {
    assert BlockOk(h.arenas, h.blocks, a);
    var hi := Past(a, h.blocks[a]);
    var rest := a + OVERHEAD + size;
    SplitMapped(words, h, a, size);
    SplitTagged(words, h, a, size);
    SplitTiled(h, a, size);
    SplitAligned(h, a, size);
    forall x | x in h.list
      ensures Past(x, h.blocks[x]) <= a || hi <= x
      ensures Apart(rest, x)
    {
      assert BlockOk(h.arenas, h.blocks, x);
      Disjoint(h.arenas, h.blocks, x, a);
    }
    LinksSurviveRange(words, SplitWords(words, a, h.blocks[a], size), head, h, a, hi);
  }

  // ---- Writes stay inside the arenas ----------------------------------------------------------

  ghost predicate InArenas(arenas: seq<Arena>, w: int) {
    exists k :: 0 <= k < |arenas| && arenas[k].base <= w < arenas[k].base + arenas[k].size
  }

  /** Words outside the arenas do not change. */
  ghost predicate ArenasOnly(arenas: seq<Arena>, before: Words, after: Words) {
    forall w | w in before && !InArenas(arenas, w) :: w in after && after[w] == before[w]
  }

  /** No word outside the arenas and no live payload outside `except` changes. */
  ghost predicate OnlyHeapWritten(h: Heap, before: Words, after: Words, except: set<int>) {
    && (forall w | w in before :: w in after)
    && LiveDataKept(h.blocks, before, after, except)
    && ArenasOnly(h.arenas, before, after)
  }

  /** Writes confined to a range within one arena and to the links of listed blocks. */
  lemma RangeInArenas(h: Heap, before: Words, after: Words, lo: int, hi: int, k: int)
    requires Tiled(h.arenas, h.blocks) && ListsFree(h.blocks, h.list)
    requires ChangedWithin(before, after, lo, hi, h.list)
    requires 0 <= k < |h.arenas| && h.arenas[k].base <= lo && hi <= h.arenas[k].base + h.arenas[k].size
    ensures ArenasOnly(h.arenas, before, after)
  {
    forall w | w in before && !InArenas(h.arenas, w) ensures after[w] == before[w] {
      if IsLinkWord(h.list, w) {
        LinkInArenas(h, w);
      }
    }
  }

  lemma LinkInArenas(h: Heap, w: int)
    requires Tiled(h.arenas, h.blocks) && ListsFree(h.blocks, h.list) && IsLinkWord(h.list, w)
    ensures InArenas(h.arenas, w)
  {
    var x := if w - HEADER in h.list then w - HEADER else w - HEADER - 8;
    assert BlockOk(h.arenas, h.blocks, x);
    var k := h.blocks[x].arena;
    assert h.arenas[k].base <= w < h.arenas[k].base + h.arenas[k].size;
  }

  // ---- Data kept ------------------------------------------------------------------------

  /** Every live block outside `except` keeps its payload, word for word. */
  ghost predicate LiveDataKept(blocks: Blocks, before: Words, after: Words, except: set<int>) {
    forall a, w {:trigger InPayload(blocks, a, w)} |
        a in blocks && !blocks[a].free && a !in except && InPayload(blocks, a, w) && w in before ::
      w in after && after[w] == before[w]
  }

  /** Every live block outside `except` keeps its header word, which others read unlocked. */
  ghost predicate LiveTagsKept(blocks: Blocks, before: Words, after: Words, except: set<int>) {
    forall a | a in blocks && !blocks[a].free && a !in except && a in before :: a in after && after[a] == before[a]
  }

  /** Writes confined to the extent of `except`, within one arena, and to the links of free blocks
      lose no live data and no live tag. */
  lemma RangeKeepsLive(h: Heap, before: Words, after: Words, lo: int, hi: int, k: int, except: set<int>)
    requires Tiled(h.arenas, h.blocks) && ListsFree(h.blocks, h.list)
    requires ChangedWithin(before, after, lo, hi, h.list)
    requires 0 <= k < |h.arenas| && h.arenas[k].base <= lo && hi <= h.arenas[k].base + h.arenas[k].size
    requires forall a | a in h.blocks && !h.blocks[a].free && a !in except ::
               Past(a, h.blocks[a]) <= lo || hi <= a
    ensures OnlyHeapWritten(h, before, after, except) && LiveTagsKept(h.blocks, before, after, except)
  {
    RangeInArenas(h, before, after, lo, hi, k);
    forall a | a in h.blocks && !h.blocks[a].free && a !in except && a in before ensures after[a] == before[a] {
      assert BlockOk(h.arenas, h.blocks, a);
      TagIsNotLink(h.arenas, h.blocks, h.list, a);
    }
    forall a, w | a in h.blocks && !h.blocks[a].free && a !in except && InPayload(h.blocks, a, w) && w in before
      ensures w in after && after[w] == before[w]
    {
      PayloadIsNotLink(h, a, w);
    }
  }

  /** The sizes read while searching are the sizes of the listed blocks. */
  lemma ListedTags(words: Words, h: Heap, i: int)
    requires Tiled(h.arenas, h.blocks) && Tagged(words, h.blocks) && Aligned(h.arenas, h.blocks)
    requires ListsFree(h.blocks, h.list) && 0 <= i < |h.list|
    ensures h.list[i] in words && h.list[i] in h.blocks && h.list[i] != 0
    ensures GetSize(words[h.list[i]]) == h.blocks[h.list[i]].size
  {
    var a := h.list[i];
    assert a in h.list;
    assert TagOk(words, h.blocks, a) && BlockAligned(h.blocks, a) && BlockOk(h.arenas, h.blocks, a);
    ReadTag(words, h.blocks, a);
  }

  /** Merging a free block into its free left neighbour, or leaving it, disturbs no live block. */
  lemma MergeKeepsLive(h: Heap, before: Words, after: Words, header: int, left: int)
    requires Tiled(h.arenas, h.blocks) && ListsFree(h.blocks, h.list)
    requires header in h.blocks && h.blocks[header].free
    requires left != 0 ==> Adjacent(h.blocks, left, header) && h.blocks[left].free
    requires ChangedWithin(before, after, if left != 0 then left else header, Past(header, h.blocks[header]), h.list)
    ensures OnlyHeapWritten(h, before, after, {}) && LiveTagsKept(h.blocks, before, after, {})
  {
    var lo, hi := if left != 0 then left else header, Past(header, h.blocks[header]);
    assert BlockOk(h.arenas, h.blocks, header) && BlockOk(h.arenas, h.blocks, lo);
    forall a | a in h.blocks && !h.blocks[a].free ensures Past(a, h.blocks[a]) <= lo || hi <= a {
      Disjoint(h.arenas, h.blocks, a, header);
      if left != 0 {
        ClearOfPair(h, left, header, a);
      }
    }
    RangeKeepsLive(h, before, after, lo, hi, h.blocks[header].arena, {});
  }

  // ---- The general path ------------------------------------------------------------------

  class GeneralHeap {
    const mem: Memory
    const free: FreeList
    const arenaSize: int
    var arenas: seq<Arena>
    ghost var blocks: Blocks

    ghost function Model(): Heap
      reads this, free
    {
      Heap(arenas, blocks, free.list)
    }

    /** The representation, which holds even halfway through an operation. */
    ghost predicate Sound()
      reads this, mem, free
    {
      free.mem == mem && Represents(mem.words, free.head, Model())
    }

    ghost predicate Valid()
      reads this, mem, free
    {
      Sound() && HeapModel.Valid(Model())
    }

    constructor (mem: Memory, arenaSize: int)
      ensures this.mem == mem && this.arenaSize == arenaSize && fresh(free)
      ensures Model() == EMPTY_HEAP && Valid()
    {
      this.mem := mem;
      this.arenaSize := arenaSize;
      free := new FreeList(mem);
      arenas := [];
      blocks := map[];
    }

    /** The arena whose carved part holds a block's header. */
    method ArenaOwning(addr: int) returns (i: nat)
      requires Sound() && addr in blocks
      ensures i == blocks[addr].arena < |arenas|
    {
      assert BlockOk(arenas, blocks, addr);
      i := 0;
      while i < |arenas|
        invariant i <= blocks[addr].arena
      {
        if arenas[i].base <= addr && addr < arenas[i].base + arenas[i].used {
          return;
        }
        i := i + 1;
      }
    }

    /** The right neighbour when it exists and is free, or null. Nothing outside the carved
        part of the arena is read. */
    method RightNeighborIfFree(block: int) returns (right: int)
      requires Sound() && block in blocks
      ensures blocks[block].arena < |arenas|
      ensures right == if IsFreeBlock(Model(), RightOf(Model(), block)) then RightOf(Model(), block).value else 0
      ensures right == 0 <==> !IsFreeBlock(Model(), RightOf(Model(), block))
    {
      assert BlockOk(arenas, blocks, block) && TagOk(mem.words, blocks, block) && BlockAligned(blocks, block);
      NeighbourFacts(Model(), block);
      ReadTag(mem.words, blocks, block);
      ghost var r := RightOf(Model(), block);
      if r.Some? {
        assert BlockOk(arenas, blocks, r.value) && TagOk(mem.words, blocks, r.value) && BlockAligned(blocks, r.value);
        ReadTag(mem.words, blocks, r.value);
      }
      var i := ArenaOwning(block);
      var size := GetSize(mem.words[block]);
      assert mem.words[FooterOf(block, size)] == size;
      var candidate := FooterOf(block, size) + FOOTER;
      var carvedEnd := arenas[i].base + arenas[i].used;
      if candidate < arenas[i].base || candidate + HEADER > carvedEnd {
        return 0;
      }
      if !IsFree(mem.words[candidate]) {
        return 0;
      }
      assert mem.words[FooterOf(candidate, GetSize(mem.words[candidate]))] == GetSize(mem.words[candidate]);
      return candidate;
    }

    /** The left neighbour when it exists and is free, or null, found through the footer
        word just before the block. */
    method LeftNeighborIfFree(block: int) returns (left: int)
      requires Sound() && block in blocks
      ensures left == if IsFreeBlock(Model(), LeftOf(Model(), block)) then LeftOf(Model(), block).value else 0
      ensures left == 0 <==> !IsFreeBlock(Model(), LeftOf(Model(), block))
    {
      assert BlockOk(arenas, blocks, block) && TagOk(mem.words, blocks, block) && BlockAligned(blocks, block);
      NeighbourFacts(Model(), block);
      var i := ArenaOwning(block);
      ghost var p := LeftOf(Model(), block);
      if p.Some? {
        assert BlockOk(arenas, blocks, p.value) && TagOk(mem.words, blocks, p.value) && BlockAligned(blocks, p.value);
        ReadTag(mem.words, blocks, p.value);
        assert FooterOf(p.value, blocks[p.value].size) == block - FOOTER;
      }
      if block - FOOTER < arenas[i].base {
        return 0;
      }
      assert p.Some?;
      var prevFooter := block - FOOTER;
      var candidate := prevFooter - mem.words[prevFooter] - HEADER;
      if candidate < arenas[i].base || candidate >= block {
        return 0;
      }
      if !IsFree(mem.words[candidate]) {
        return 0;
      }
      assert mem.words[FooterOf(candidate, GetSize(mem.words[candidate]))] == GetSize(mem.words[candidate]);
      return candidate;
    }

    /** Sets or clears the free flag of an unlisted block. */
    method SetBlockFree(block: int, isFree: bool)
      requires Sound() && block in blocks && block !in free.list
      modifies this`blocks, mem`words
      ensures Sound() && Model() == Mark(old(Model()), block, isFree)
      ensures ChangedWithin(old(mem.words), mem.words, block, block + HEADER, free.list)
    {
      MarkedRepresents(mem.words, free.head, Model(), block, isFree);
      assert TagOk(mem.words, blocks, block) && BlockAligned(blocks, block);
      TagPacking(blocks[block].size, blocks[block].free, 0, isFree);
      mem.Store(block, SetFree(mem.words[block], isFree));
      blocks := Marked(blocks, block, isFree);
    }

    /** free_list().remove on a listed block. */
    method RemoveFree(block: int)
      requires Sound() && block in free.list
      modifies free, mem`words
      ensures Sound() && Model() == old(Model()).(list := Without(old(free.list), block))
      ensures OnlyLinksChanged(old(mem.words), mem.words, old(free.list))
    {
      assert TagOk(mem.words, blocks, block) && BlockAligned(blocks, block);
      ReadTag(mem.words, blocks, block);
      WithoutMembers(free.list, block);
      free.Remove(block);
      TagsSurviveLinks(old(mem.words), mem.words, arenas, blocks, old(free.list));
    }

    /** Grows the unlisted block `first` over the unlisted block `second` on its right, by
        rewriting the size in its header and at its new footer. */
    method JoinTags(first: int, second: int)
      requires Sound() && Adjacent(blocks, first, second)
      requires first !in free.list && second !in free.list
      modifies this`blocks, mem`words
      ensures Sound() && Model() == old(Model()).(blocks := Joined(old(blocks), first, second))
      ensures mem.words.Keys == old(mem.words.Keys)
      ensures forall w | w in old(mem.words) && w != first && w != FooterOf(second, old(blocks)[second].size)
                :: mem.words[w] == old(mem.words)[w]
    {
      assert TagOk(mem.words, blocks, first) && TagOk(mem.words, blocks, second);
      assert BlockAligned(blocks, first) && BlockAligned(blocks, second);
      ReadTag(mem.words, blocks, first);
      ReadTag(mem.words, blocks, second);
      ghost var h, before := Model(), mem.words;
      JoinedRepresents(mem.words, free.head, h, first, second);
      var size := GetSize(mem.words[first]) + FOOTER + HEADER + GetSize(mem.words[second]);
      AlignedAdd(blocks[first].size + blocks[second].size, OVERHEAD) by {
        AlignedAdd(blocks[first].size, blocks[second].size);
      }
      assert size == blocks[first].size + blocks[second].size + OVERHEAD;
      TagPacking(blocks[first].size, blocks[first].free, size, true);
      mem.Store(first, SetSize(mem.words[first], size));
      mem.Store(FooterOf(first, size), size);
      blocks := Joined(blocks, first, second);
      assert mem.words == JoinWords(before, first, size, h.blocks[first].free);
    }

    /** Takes the listed right neighbour off the list and grows `block` over it. */
    method AbsorbRightNeighbor(block: int, right: int)
      requires Sound() && Adjacent(blocks, block, right)
      requires block !in free.list && right in free.list
      modifies this`blocks, free, mem`words
      ensures Sound() && Model() == AbsorbRight(old(Model()), block, right)
      ensures mem.words.Keys == old(mem.words.Keys)
      ensures forall w | w in old(mem.words) && w != block && w != FooterOf(right, old(blocks)[right].size)
                         && !IsLinkWord(old(free.list), w) :: mem.words[w] == old(mem.words)[w]
    {
      WithoutMembers(free.list, right);
      RemoveFree(right);
      JoinTags(block, right);
    }

    /** free_list().insert on an unlisted free block. */
    method InsertFree(block: int)
      requires Sound() && block in blocks && blocks[block].free && block !in free.list
      modifies free, mem`words
      ensures Sound() && Model() == old(Model()).(list := [block] + old(free.list))
      ensures ChangedWithin(old(mem.words), mem.words, NextLink(block), PrevLink(block) + 8, old(free.list))
    {
      assert TagOk(mem.words, blocks, block) && BlockAligned(blocks, block) && BlockOk(arenas, blocks, block);
      ReadTag(mem.words, blocks, block);
      forall i | 0 <= i < |free.list| ensures Apart(block, free.list[i]) {
        var x := free.list[i];
        assert x in free.list && BlockOk(arenas, blocks, x);
        Disjoint(arenas, blocks, x, block);
      }
      OffsetMapped(mem.words, Model(), block, HEADER);
      OffsetMapped(mem.words, Model(), block, HEADER + 8);
      free.Insert(block);
      TagsSurviveLinks(old(mem.words), mem.words, arenas, blocks, free.list);
    }

    /** Shrinks `header` to `size` bytes and constructs a free block in what is left. */
    method CutTags(header: int, size: int) returns (rest: int)
      requires Sound() && header in blocks && header !in free.list
      requires LINKS <= size && size % ALIGNMENT == 0 && blocks[header].size - size >= MIN_BLOCK
      modifies this`blocks, mem`words
      ensures Sound() && Model() == Split(old(Model()), header, size).(list := free.list)
      ensures rest == header + OVERHEAD + size && rest !in free.list && rest in blocks && blocks[rest].free
      ensures mem.words.Keys == old(mem.words.Keys)
      ensures forall w | w in old(mem.words) && w != header
                         && !(header + HEADER + size <= w < Past(header, old(blocks)[header]))
                :: mem.words[w] == old(mem.words)[w]
    {
      assert TagOk(mem.words, blocks, header) && BlockAligned(blocks, header);
      ReadTag(mem.words, blocks, header);
      ghost var h, before := Model(), mem.words;
      SplitRepresents(mem.words, free.head, h, header, size);
      SplitMapped(mem.words, h, header, size);
      TagPacking(blocks[header].size, blocks[header].free, size, true);
      AlignedAdd(blocks[header].size - size, OVERHEAD) by {
        AlignedAdd(blocks[header].size, size);
      }
      var remainder := GetSize(mem.words[header]) - size;
      mem.Store(header, SetSize(mem.words[header], size));
      mem.Store(FooterOf(header, size), size);
      rest := FooterOf(header, size) + FOOTER;
      var restSize := remainder - HEADER - FOOTER;
      assert restSize == h.blocks[header].size - size - OVERHEAD;
      TagPacking(restSize, true, 0, true);
      mem.Store(rest, NewTag(restSize, true));
      mem.Store(FooterOf(rest, restSize), restSize);
      blocks := Split(h, header, size).blocks;
      assert mem.words == SplitWords(before, header, h.blocks[header], size);
    }

    /** Shrinks `header` to `size` bytes and lists the remainder, when the remainder can be a
        block. */
    method MaybeSplit(header: int, size: int)
      requires Sound() && header in blocks && header !in free.list
      requires LINKS <= size <= blocks[header].size && size % ALIGNMENT == 0
      modifies this`blocks, free, mem`words
      ensures Sound() && Model() == Split(old(Model()), header, size)
      ensures var left := old(blocks)[header].size - size;
              && header in blocks && blocks[header].size == (if left >= 48 then size else old(blocks)[header].size)
              && free.list == if left >= 48 then [header + 32 + size] + old(free.list) else old(free.list)
      ensures mem.words.Keys == old(mem.words.Keys)
      ensures forall w | w in old(mem.words) && w != header
                         && !(header + HEADER + size <= w < Past(header, old(blocks)[header]))
                         && !IsLinkWord(old(free.list), w) :: mem.words[w] == old(mem.words)[w]
    {
      assert TagOk(mem.words, blocks, header) && BlockAligned(blocks, header);
      ReadTag(mem.words, blocks, header);
      if GetSize(mem.words[header]) - size < MIN_BLOCK {
        return;
      }
      var rest := CutTags(header, size);
      InsertFree(rest);
    }

    /** Makes the last arena one with room for `needed` bytes, asking the system when it has
        too little; reports whether that succeeded. */
    method ArenaWithRoom(needed: int) returns (found: bool)
      requires Valid() && OVERHEAD <= needed
      modifies this`arenas, mem
      ensures Sound() && NoEmptyArena(old(arenas))
      ensures forall w | w in old(mem.words) :: w in mem.words && mem.words[w] == old(mem.words)[w]
      ensures (Model(), mem.System(), found) == WithRoom(old(Model()), old(mem.System()), arenaSize, needed - OVERHEAD)
      ensures blocks == old(blocks)
      ensures found ==> Roomy(Model(), needed - OVERHEAD)
      ensures !found ==> old(mem.System()).Ask(if needed > arenaSize then needed else arenaSize).0.None?
      ensures |arenas| > |old(arenas)| ==>
                && Unused(old(Model())) < needed
                && var bytes := arenas[|old(arenas)|].size;
                && needed <= bytes && arenaSize <= bytes && (bytes < needed + 4096 || bytes < arenaSize + 4096)
    {
      if |arenas| != 0 {
        var current := arenas[|arenas| - 1];
        if current.size - current.used >= needed {
          return true;
        }
      }
      var requestSize := RequestSize(needed, arenaSize);
      AskGrants(mem.System(), requestSize);
      ghost var before, h := mem.words, Model();
      var region := mem.Acquire(requestSize);
      MoreWordsRepresent(before, mem.words, free.head, h);
      if region.None? {
        return false;
      }
      var r := region.value;
      RegionIsFresh(before.Keys, h, r);
      OpenTiled(h, r);
      arenas := arenas + [Arena(r.base, r.size, 0)];
      OpenRepresents(mem.words, free.head, h, r);
      return true;
    }

    /** Serves an aligned request from the listed block `reused`. */
    method ReuseBlock(reused: int, payload: int)
      requires Valid() && reused in free.list
      requires LINKS <= payload <= blocks[reused].size && payload % ALIGNMENT == 0
      modifies this`blocks, free, mem`words
      ensures Valid() && Model() == Reuse(old(Model()), reused, payload)
      ensures mem.words.Keys == old(mem.words.Keys)
      ensures OnlyHeapWritten(old(Model()), old(mem.words), mem.words, {})
      ensures LiveTagsKept(old(blocks), old(mem.words), mem.words, {})
    {
      ghost var h, before := Model(), mem.words;
      ReuseFitKeeps(h, reused, payload);
      RemoveFree(reused);
      MaybeSplit(reused, payload);
      SetBlockFree(reused, false);
      ghost var hi := Past(reused, h.blocks[reused]);
      assert ChangedWithin(before, mem.words, reused, hi, h.list) by {
        LinksShrink(h.list, reused);
        assert BlockOk(h.arenas, h.blocks, reused);
        SplitLinks(h, reused, payload);
      }
      assert BlockOk(h.arenas, h.blocks, reused);
      RangeKeepsLive(h, before, mem.words, reused, hi, h.blocks[reused].arena, {});
    }

    /** Constructs a block at the bump pointer of the last arena. */
    method CarveBlock(payload: int) returns (block: int)
      requires Sound() && Roomy(Model(), payload) && LINKS <= payload && payload % ALIGNMENT == 0
      modifies this`arenas, this`blocks, mem`words
      ensures Valid() && Model() == Carve(old(Model()), payload)
      ensures block == old(arenas[|arenas| - 1].End())
      ensures mem.words.Keys == old(mem.words.Keys) && mem.System() == old(mem.System())
      ensures forall w | w in mem.words && !(block <= w < block + OVERHEAD + payload) :: mem.words[w] == old(mem.words)[w]
    {
      ghost var h := Model();
      CarveValid(h, payload);
      CarveRepresents(mem.words, free.head, h, payload);
      var last := |arenas| - 1;
      block := arenas[last].base + arenas[last].used;
      TagPacking(payload, false, 0, true);
      mem.Store(block, NewTag(payload, false));
      mem.Store(FooterOf(block, payload), payload);
      arenas := arenas[last := arenas[last].(used := arenas[last].used + (HEADER + payload + FOOTER))];
      blocks := blocks[block := Block(payload, false, last)];
    }

    /** The earliest listed block large enough, or null. */
    method FindFit(payload: int) returns (block: int)
      requires Valid()
      ensures forall i | 0 <= i < |free.list| :: free.list[i] in blocks
      ensures block == FirstFitBlock(blocks, free.list, payload)
    {
      forall i | 0 <= i < |free.list|
        ensures free.list[i] in mem.words && free.list[i] in blocks && free.list[i] != 0
        ensures GetSize(mem.words[free.list[i]]) == blocks[free.list[i]].size
      {
        ListedTags(mem.words, Model(), i);
      }
      block := free.FindFirstFit(payload);
      ghost var k := |free.list|;
      if block != 0 {
        k :| 0 <= k < |free.list| && free.list[k] == block && GetSize(mem.words[block]) >= payload
             && forall i | 0 <= i < k :: GetSize(mem.words[free.list[i]]) < payload;
      }
      FirstFitIs(blocks, free.list, payload, k);
    }

    /** my_malloc for a request no size class serves. */
    method Malloc(size: int) returns (ptr: int)
      requires Valid() && 0 < size <= MAX_REQUEST
      modifies this, free, mem
      ensures Valid()
      ensures forall i | 0 <= i < |old(free.list)| :: old(free.list)[i] in old(blocks)
      ensures (Model(), mem.System(), ptr) == Allocate(old(Model()), old(mem.System()), arenaSize, AlignUp(size))
      ensures OnlyHeapWritten(old(Model()), old(mem.words), mem.words, {})
    {
      AlignUpExact(size);
      var payload := AlignUp(size);
      var reused := FindFit(payload);
      if reused != 0 {
        ReuseBlock(reused, payload);
        return reused + HEADER;
      }
      ghost var h, os, before := Model(), mem.System(), mem.words;
      ptr := MallocFresh(payload);
      NewBlockWritesOnlyHeap(h, os, arenaSize, payload, before, mem.words, ptr);
    }

    /** my_malloc when no listed block fits: carve from an arena, asking for one if needed. */
    method MallocFresh(payload: int) returns (ptr: int)
      requires Valid() && LINKS <= payload && payload % ALIGNMENT == 0
      modifies this, mem
      ensures Valid()
      ensures IsAllocateNew(old(Model()), old(mem.System()), arenaSize, payload, Model(), mem.System(), ptr)
      ensures forall w | w in old(mem.words) && !(ptr != 0 && ptr - HEADER <= w < ptr + payload + FOOTER) ::
                w in mem.words && mem.words[w] == old(mem.words)[w]
      ensures forall w | w in old(mem.words) :: w in mem.words
    {
      ghost var h, os := Model(), mem.System();
      var needed := HEADER + payload + FOOTER;
      assert needed - OVERHEAD == payload;
      var found := ArenaWithRoom(needed);
      ghost var roomy, os' := Model(), mem.System();
      if !found {
        NoNewBlock(h, os, arenaSize, payload, roomy, os', found);
        return 0;
      }
      var block := CarveBlock(payload);
      assert Model() == Carve(roomy, payload) && mem.System() == os';
      ptr := block + HEADER;
      NewBlock(h, os, arenaSize, payload, roomy, os', found, Model(), mem.System(), ptr);
    }

    /** First half of my_free: mark the block free and absorb a free right neighbour. */
    method FreeRight(header: int)
      requires Valid() && header in blocks && !blocks[header].free
      modifies this`blocks, free, mem`words
      ensures old(blocks)[header].arena < |old(arenas)|
      ensures Sound() && Model() == ReleaseRight(old(Model()), header) && HalfReleased(Model(), header)
      ensures mem.words.Keys == old(mem.words.Keys)
      ensures OnlyHeapWritten(old(Model()), old(mem.words), mem.words, {header})
      ensures LiveTagsKept(old(blocks), old(mem.words), mem.words, {header})
    {
      ghost var h, before := Model(), mem.words;
      ReleaseRightKeeps(h, header);
      NeighbourFacts(h, header);
      SetBlockFree(header, true);
      NeighbourFacts(Model(), header);
      var right := RightNeighborIfFree(header);
      ghost var hi := Past(header, blocks[header]);
      assert BlockOk(h.arenas, h.blocks, header);
      if right != 0 {
        assert BlockOk(h.arenas, h.blocks, right);
        hi := Past(right, blocks[right]);
        AbsorbRightNeighbor(header, right);
      }
      assert ChangedWithin(before, mem.words, header, hi, h.list);
      forall a | a in h.blocks && !h.blocks[a].free && a != header
        ensures Past(a, h.blocks[a]) <= header || hi <= a
      {
        Disjoint(h.arenas, h.blocks, a, header);
        if right != 0 {
          ClearOfPair(h, header, right, a);
        }
      }
      RangeKeepsLive(h, before, mem.words, header, hi, h.blocks[header].arena, {header});
    }

    /** Second half: be absorbed by a free left neighbour, then insert the result once. */
    method FreeLeft(header: int)
      requires Sound() && HalfReleased(Model(), header)
      modifies this`blocks, free, mem`words
      ensures Valid() && Model() == ReleaseLeft(old(Model()), header)
      ensures mem.words.Keys == old(mem.words.Keys)
      ensures OnlyHeapWritten(old(Model()), old(mem.words), mem.words, {})
      ensures LiveTagsKept(old(blocks), old(mem.words), mem.words, {})
    {
      ghost var h, before := Model(), mem.words;
      ReleaseLeftKeeps(h, header);
      NeighbourFacts(h, header);
      assert BlockOk(h.arenas, h.blocks, header);
      ghost var hi := Past(header, blocks[header]);
      var merged := header;
      var left := LeftNeighborIfFree(header);
      if left != 0 {
        assert BlockOk(h.arenas, h.blocks, left);
        WithoutMembers(free.list, left);
        RemoveFree(left);
        JoinTags(left, merged);
        merged := left;
      }
      ghost var joined := mem.words;
      assert ChangedWithin(before, joined, merged, hi, h.list);
      InsertFree(merged);
      assert Model() == ReleaseLeft(h, header);
      assert ChangedWithin(before, mem.words, merged, hi, h.list);
      MergeKeepsLive(h, before, mem.words, header, left);
    }

    /** my_free for a general block: right neighbour first, then left, then one insertion. */
    method Free(ptr: int)
      requires Valid() && ptr - HEADER in blocks && !blocks[ptr - HEADER].free
      modifies this`blocks, free, mem`words
      ensures Valid()
      ensures old(blocks)[ptr - HEADER].arena < |old(arenas)|
      ensures Model() == Release(old(Model()), ptr - HEADER)
      ensures mem.words.Keys == old(mem.words.Keys)
      ensures OnlyHeapWritten(old(Model()), old(mem.words), mem.words, {ptr - HEADER})
    {
      var header := ptr - HEADER;
      ReleaseRightLive(Model(), header);
      FreeRight(header);
      ghost var half, halfway := blocks, mem.words;
      FreeLeft(header);
      forall a, w | a in old(blocks) && !old(blocks)[a].free && a != header
                    && InPayload(old(blocks), a, w) && w in old(mem.words)
        ensures mem.words[w] == old(mem.words)[w]
      {
        assert InPayload(half, a, w) && halfway[w] == old(mem.words)[w];
      }
    }

    /** Grows a live block over its free right neighbour and splits off the excess. */
    method GrowOver(header: int, right: int, newPayload: int)
      requires Valid() && header in blocks && !blocks[header].free && blocks[header].arena < |arenas|
      requires CanGrow(Model(), header, newPayload) && RightOf(Model(), header) == Some(right)
      requires blocks[header].size < newPayload && newPayload % ALIGNMENT == 0
      modifies this`blocks, free, mem`words
      ensures Valid() && Model() == Grow(old(Model()), header, newPayload)
      ensures mem.words.Keys == old(mem.words.Keys)
      ensures OnlyHeapWritten(old(Model()), old(mem.words), mem.words, {})
      ensures LiveTagsKept(old(blocks), old(mem.words), mem.words, {header})
    {
      ghost var h, before := Model(), mem.words;
      GrowValid(h, header, newPayload);
      NeighbourFacts(h, header);
      assert BlockOk(h.arenas, h.blocks, header) && BlockOk(h.arenas, h.blocks, right);
      WithoutMembers(free.list, right);
      AbsorbRightNeighbor(header, right);
      MaybeSplit(header, newPayload);
      ghost var hi := Past(right, h.blocks[right]);
      assert ChangedWithin(before, mem.words, header, hi, h.list);
      forall a | a in h.blocks && !h.blocks[a].free && a != header
        ensures Past(a, h.blocks[a]) <= header || hi <= a
      {
        ClearOfPair(h, header, right, a);
      }
      RangeKeepsLive(h, before, mem.words, header, hi, h.blocks[header].arena, {header});
      forall w | InPayload(h.blocks, header, w) && w in before ensures mem.words[w] == before[w] {
        PayloadIsNotLink(h, header, w);
      }
    }

    /** The part of my_realloc that runs under the general lock: keep the block when it is
        large enough, or grow it over a free right neighbour. */
    method ResizeInPlace(ptr: int, newSize: int) returns (kept: bool, oldPayload: int)
      requires Valid() && ptr - HEADER in blocks && !blocks[ptr - HEADER].free
      requires 0 <= newSize <= MAX_REQUEST
      modifies this`blocks, free, mem`words
      ensures Valid() && oldPayload == old(blocks)[ptr - HEADER].size
      ensures old(blocks)[ptr - HEADER].arena < |old(arenas)|
      ensures kept <==> AlignUp(newSize) <= oldPayload || RoomBeside(old(blocks), ptr - HEADER, AlignUp(newSize))
      ensures var a, size := ptr - HEADER, AlignUp(newSize);
              if size <= oldPayload then
                kept && Model() == old(Model()) && mem.words == old(mem.words)
              else if CanGrow(old(Model()), a, size) then
                kept && Model() == Grow(old(Model()), a, size)
              else
                !kept && Model() == old(Model()) && mem.words == old(mem.words)
      ensures mem.words.Keys == old(mem.words.Keys)
      ensures OnlyHeapWritten(old(Model()), old(mem.words), mem.words, {})
    {
      AlignUpExact(newSize);
      var header := ptr - HEADER;
      ghost var h := Model();
      CanGrowIs(h, header, AlignUp(newSize));
      assert TagOk(mem.words, blocks, header) && BlockAligned(blocks, header) && BlockOk(arenas, blocks, header);
      ReadTag(mem.words, blocks, header);
      kept := false;
      oldPayload := GetSize(mem.words[header]);
      var newPayload := AlignUp(newSize);
      if newPayload <= oldPayload {
        return true, oldPayload;
      }
      var right := RightNeighborIfFree(header);
      NeighbourFacts(h, header);
      if right != 0 {
        assert TagOk(mem.words, blocks, right) && BlockAligned(blocks, right);
        ReadTag(mem.words, blocks, right);
        if GetSize(mem.words[header]) + FOOTER + HEADER + GetSize(mem.words[right]) >= newPayload {
          GrowOver(header, right, newPayload);
          kept := true;
        }
      }
    }
  }

  ghost predicate IsAllocateNew(h: Heap, os: Os, arenaSize: int, size: int, h': Heap, os': Os, ptr: int)
    requires 0 <= size
  {
    (h', os', ptr) == AllocateNew(h, os, arenaSize, size)
  }

  lemma NoNewBlock(h: Heap, os: Os, arenaSize: int, size: int, h': Heap, os': Os, found: bool)
    requires 0 <= size && !found && (h', os', found) == WithRoom(h, os, arenaSize, size)
    ensures h' == h && IsAllocateNew(h, os, arenaSize, size, h', os', 0)
  {
  }

  lemma NewBlock(h: Heap, os: Os, arenaSize: int, size: int, roomy: Heap, os': Os, found: bool, h': Heap, os'': Os, ptr: int)
    requires 0 <= size && found && (roomy, os', found) == WithRoom(h, os, arenaSize, size) && roomy.arenas != []
    requires h' == Carve(roomy, size) && os'' == os' && ptr == roomy.arenas[|roomy.arenas| - 1].End() + HEADER
    ensures IsAllocateNew(h, os, arenaSize, size, h', os'', ptr)
  {
  }

  /** A block newly carved writes only unused memory of the heap, old or freshly mapped. */
  lemma NewBlockWritesOnlyHeap(h: Heap, os: Os, arenaSize: int, size: int, before: Words, after: Words, ptr: int)
    requires HeapModel.Valid(h) && LINKS <= size && size % ALIGNMENT == 0
    requires before.Keys == os.mapped && AllocateNew(h, os, arenaSize, size).2 == ptr
    requires forall w | w in before && !(ptr != 0 && ptr - HEADER <= w < ptr + size + FOOTER) ::
               w in after && after[w] == before[w]
    requires forall w | w in before :: w in after
    ensures OnlyHeapWritten(h, before, after, {})
  {
    if HasRoom(h, size) {
      var arena := h.arenas[|h.arenas| - 1];
      forall w | w in before && !InArenas(h.arenas, w) ensures after[w] == before[w] {
        assert !(arena.base <= w < arena.base + arena.size);
      }
      forall a, w | a in h.blocks && InPayload(h.blocks, a, w) && w in before ensures after[w] == before[w] {
        ClearOfUnused(h, size, a);
      }
    } else {
      FreshUntouched(os, RequestSize(OVERHEAD + size, arenaSize), before, after, ptr, size);
    }
  }

  lemma FreshUntouched(os: Os, request: int, before: Words, after: Words, ptr: int, size: int)
    requires 0 <= size && before.Keys == os.mapped && OVERHEAD + size <= request
    requires var answer := os.Ask(request).0; ptr == if answer.Some? then answer.value.base + HEADER else 0
    requires forall w | w in before && !(ptr != 0 && ptr - HEADER <= w < ptr + size + FOOTER) ::
               w in after && after[w] == before[w]
    ensures forall w | w in before :: w in after && after[w] == before[w]
  {
    AskGrants(os, request);
    forall w | w in before ensures w in after && after[w] == before[w] {
      if os.Ask(request).0.Some? {
        assert Aside(w, os.Ask(request).0.value);
      }
    }
  }

  /** The first half of a free leaves every other live block as it was. */
  lemma ReleaseRightLive(h: Heap, a: int)
    requires Tiled(h.arenas, h.blocks) && a in h.blocks && !h.blocks[a].free
    ensures h.blocks[a].arena < |h.arenas|
    ensures forall x | x in h.blocks && !h.blocks[x].free && x != a ::
              x in ReleaseRight(h, a).blocks && ReleaseRight(h, a).blocks[x] == h.blocks[x]
  {
    assert BlockOk(h.arenas, h.blocks, a);
  }

  lemma LinksShrink(list: seq<int>, x: int)
    requires NoDuplicates(list)
    ensures forall w | IsLinkWord(Without(list, x), w) :: IsLinkWord(list, w)
  {
    WithoutMembers(list, x);
  }

  /** Splitting adds link words only inside the block being split. */
  lemma SplitLinks(h: Heap, a: int, size: int)
    requires a in h.blocks && LINKS <= size <= h.blocks[a].size && NoDuplicates(h.list)
    ensures var h' := Split(h.(list := Without(h.list, a)), a, size);
            forall w | IsLinkWord(h'.list, w) :: IsLinkWord(h.list, w) || a <= w < Past(a, h.blocks[a])
  {
    WithoutMembers(h.list, a);
  }

  // ---- Support for the arena methods -----------------------------------------------------

  lemma MoreWordsRepresent(before: Words, after: Words, head: int, h: Heap)
    requires Represents(before, head, h)
    requires forall w | w in before :: w in after && after[w] == before[w]
    ensures Represents(after, head, h)
  {
    forall a | a in h.blocks ensures TagOk(after, h.blocks, a) {
      assert TagOk(before, h.blocks, a);
    }
    LinkedFrame(before, after, head, h.list);
  }

  lemma OpenRepresents(words: Words, head: int, h: Heap, r: Region)
    requires Represents(words, head, h) && Tiled(OpenArena(h, r).arenas, h.blocks)
    requires r.base % ALIGNMENT == 0 && WordsOf(r) <= words.Keys
    ensures Represents(words, head, OpenArena(h, r))
  {
    var grown := OpenArena(h, r);
    forall i | 0 <= i < |grown.arenas| ensures ArenaAligned(grown.arenas[i]) {
      assert i < |h.arenas| ==> ArenaAligned(h.arenas[i]);
    }
  }

  /** Constructing a block at the bump pointer. */
  ghost function CarveWords(words: Words, a: int, size: int): Words {
    words[a := Tag(size, false)][FooterOf(a, size) := size]
  }

  lemma CarveRepresents(words: Words, head: int, h: Heap, size: int)
    requires Represents(words, head, h) && HasRoom(h, size) && LINKS <= size && size % ALIGNMENT == 0
    ensures var a := h.arenas[|h.arenas| - 1].End();
            && a in words && FooterOf(a, size) in words
            && Represents(CarveWords(words, a, size), head, Carve(h, size))
            && CarveWords(words, a, size).Keys == words.Keys
  {
    var a := h.arenas[|h.arenas| - 1].End();
    var after := CarveWords(words, a, size);
    var carved := Carve(h, size);
    CarveTiled(h, size);
    CarveAligned(h, size);
    CarveMapped(words, h, size);
    forall x | x in h.blocks ensures Past(x, h.blocks[x]) <= a || a + OVERHEAD + size <= x {
      ClearOfUnused(h, size, x);
    }
    forall x | x in carved.blocks ensures TagOk(after, carved.blocks, x) {
      if x != a {
        assert TagOk(words, h.blocks, x);
        TagSurvivesRange(words, after, h.arenas, h.blocks, a, a + OVERHEAD + size, x);
      }
    }
    LinksSurviveRange(words, after, head, h, a, a + OVERHEAD + size);
  }

  lemma AlignedSum(x: int, y: int)
    requires x % ALIGNMENT == 0 && y % ALIGNMENT == 0
    ensures (x + y) % ALIGNMENT == 0 && (x + y) % 8 == 0
  {
    AlignedAdd(x, y);
    AlignedIsWord(x + y);
  }

  lemma CarveMapped(words: Words, h: Heap, size: int)
    requires Aligned(h.arenas, h.blocks) && Mapped(words, h.arenas)
    requires ArenasOk(h.arenas) && HasRoom(h, size) && LINKS <= size && size % ALIGNMENT == 0
    ensures var a := h.arenas[|h.arenas| - 1].End(); a in words && FooterOf(a, size) in words
  {
    var last := h.arenas[|h.arenas| - 1];
    assert ArenaAligned(last);
    var region := WordsOf(Region(last.base, last.size));
    AlignedSum(last.base, last.used);
    AlignedSum(last.End(), HEADER + size);
    assert last.End() in region && FooterOf(last.End(), size) in region;
  }

  lemma ReuseFitKeeps(h: Heap, a: int, size: int)
    requires HeapModel.Valid(h) && a in h.list && LINKS <= size <= h.blocks[a].size && size % ALIGNMENT == 0
    ensures a !in Without(h.list, a) && HeapModel.Valid(Reuse(h, a, size))
    ensures forall x | x in h.blocks && !h.blocks[x].free ::
              Past(x, h.blocks[x]) <= a || Past(a, h.blocks[a]) <= x
  {
    WithoutMembers(h.list, a);
    ReuseValid(h, a, size);
    forall x | x in h.blocks && !h.blocks[x].free
      ensures Past(x, h.blocks[x]) <= a || Past(a, h.blocks[a]) <= x
    {
      Disjoint(h.arenas, h.blocks, x, a);
    }
  }
}
