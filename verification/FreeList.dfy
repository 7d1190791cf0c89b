/** Block tags: the size word shared with the free flag, and the byte offsets of a block. */
module BlockTags {
  import opened Machine

  const HEADER := 16
  const FOOTER := 16
  const LINKS := 16
  const OVERHEAD := HEADER + FOOTER

  /** The smallest remainder that can stand as a block of its own. */
  const MIN_BLOCK := HEADER + LINKS + FOOTER

  function GetSize(tag: int): int { tag - tag % 2 }

  predicate IsFree(tag: int) { tag % 2 == 1 }

  function SetSize(tag: int, size: int): int { size - size % 2 + tag % 2 }

  function SetFree(tag: int, free: bool): int { tag - tag % 2 + if free then 1 else 0 }

  /** The tag a freshly constructed header carries. */
  function NewTag(size: int, free: bool): int { SetFree(SetSize(0, size), free) }

  /** The tag of a block, for an even size: the size with the flag in bit 0. */
  function Tag(size: int, free: bool): int { size + if free then 1 else 0 }

  lemma EvenTag(size: int, free: bool)
    requires size % ALIGNMENT == 0
    ensures size % 2 == 0 && Tag(size, free) % 2 == if free then 1 else 0
  {
    assert size == 2 * (8 * (size / 16));
  }

  /** The accessors and the packed word agree: each reads and writes its own part only. */
  lemma TagPacking(size: int, free: bool, size': int, free': bool)
    requires size % ALIGNMENT == 0 && size' % ALIGNMENT == 0
    ensures NewTag(size, free) == Tag(size, free)
    ensures GetSize(Tag(size, free)) == size && IsFree(Tag(size, free)) == free
    ensures SetSize(Tag(size, free), size') == Tag(size', free)
    ensures SetFree(Tag(size, free), free') == Tag(size, free')
  {
    EvenTag(size, free);
    EvenTag(size', free);
  }

  function FooterOf(block: int, size: int): int { block + HEADER + size }

  function NextLink(block: int): int { block + HEADER }

  function PrevLink(block: int): int { block + HEADER + 8 }
}

/** The intrusive doubly linked list of free blocks. Its links overlay the first 16 payload
    bytes of each member. */
module FreeLists {
  import opened Machine
  import opened BlockTags

  ghost predicate NoDuplicates(s: seq<int>) {
    forall i, j | 0 <= i < j < |s| :: s[i] != s[j]
  }

  /** s without its first occurrence of x. */
  ghost function Without(s: seq<int>, x: int): seq<int> {
    if s == [] then [] else if s[0] == x then s[1..] else [s[0]] + Without(s[1..], x)
  }

  lemma {:induction false} WithoutAt(s: seq<int>, k: int)
    requires 0 <= k < |s| && NoDuplicates(s)
    ensures Without(s, s[k]) == s[..k] + s[k + 1..]
  {
    if k == 0 {
    } else {
      WithoutAt(s[1..], k - 1);
      assert s[1..][..k - 1] == s[1..k];
      assert s[..k] == [s[0]] + s[1..k];
    }
  }

  /** Taking a member out keeps every other member, once, in order. */
  lemma {:induction false} WithoutMembers(s: seq<int>, x: int)
    requires NoDuplicates(s)
    ensures NoDuplicates(Without(s, x))
    ensures forall y :: y in Without(s, x) <==> y in s && y != x
    ensures x in s ==> multiset(s) == multiset(Without(s, x)) + multiset{x}
    ensures x !in s ==> Without(s, x) == s
  {
    if s == [] {
    } else {
      assert s == [s[0]] + s[1..];
      if s[0] != x {
        WithoutMembers(s[1..], x);
        assert s[0] !in s[1..];
      }
    }
  }

  function LinkTo(s: seq<int>, i: int): int {
    if 0 <= i < |s| then s[i] else 0
  }

  /** Two blocks whose link words do not overlap. */
  predicate Apart(b: int, c: int) {
    b + LINKS <= c || c + LINKS <= b
  }

  /** The words at `head` and in the members spell out exactly the sequence `list`: null
      terminated in both directions, no member twice. */
  ghost predicate Linked(words: Words, head: int, list: seq<int>) {
    && head == LinkTo(list, 0)
    && (forall i, j | 0 <= i < j < |list| :: Apart(list[i], list[j]))
    && (forall i | 0 <= i < |list| :: LinksOf(words, list, i))
  }

  /** Member i points at its two neighbours in the list. */
  ghost predicate LinksOf(words: Words, list: seq<int>, i: int)
    requires 0 <= i < |list|
  {
    && 0 < list[i]
    && NextLink(list[i]) in words && words[NextLink(list[i])] == LinkTo(list, i + 1)
    && PrevLink(list[i]) in words && words[PrevLink(list[i])] == LinkTo(list, i - 1)
  }

  /** Whether w is one of the two link words of a member. */
  ghost predicate IsLinkWord(list: seq<int>, w: int) {
    w - HEADER in list || w - HEADER - 8 in list
  }

  /** Words outside the members' links do not change. */
  ghost predicate OnlyLinksChanged(before: Words, after: Words, list: seq<int>) {
    && after.Keys == before.Keys
    && forall w | w in before && !IsLinkWord(list, w) :: after[w] == before[w]
  }

  /** A list survives any write that misses its link words. */
  lemma LinkedFrame(before: Words, after: Words, head: int, list: seq<int>)
    requires Linked(before, head, list)
    requires forall w | w in before && IsLinkWord(list, w) :: w in after && after[w] == before[w]
    ensures Linked(after, head, list)
  {
    forall i | 0 <= i < |list|
      ensures IsLinkWord(list, NextLink(list[i])) && IsLinkWord(list, PrevLink(list[i]))
    {
      assert NextLink(list[i]) - HEADER == list[i] && PrevLink(list[i]) - HEADER - 8 == list[i];
    }
    forall i | 0 <= i < |list| ensures LinksOf(after, list, i) {
      assert LinksOf(before, list, i);
    }
  }

  /** Writing a new block's two links and the old head's back link. */
  ghost function Pushed(words: Words, head: int, block: int): Words {
    var w := words[PrevLink(block) := 0][NextLink(block) := head];
    if head != 0 then w[PrevLink(head) := block] else w
  }

  lemma InsertLinks(words: Words, head: int, list: seq<int>, block: int)
    requires Linked(words, head, list)
    requires 0 < block && forall i | 0 <= i < |list| :: Apart(block, list[i])
    requires NextLink(block) in words && PrevLink(block) in words
    ensures Linked(Pushed(words, head, block), block, [block] + list)
    ensures OnlyLinksChanged(words, Pushed(words, head, block), [block] + list)
    ensures head != 0 ==> PrevLink(head) in words
  {
    var longer := [block] + list;
    var after := Pushed(words, head, block);
    assert head != 0 ==> LinksOf(words, list, 0);
    forall i | 0 <= i < |longer| ensures LinksOf(after, longer, i) {
      if i > 0 {
        assert LinksOf(words, list, i - 1);
      }
    }
    assert block in longer && (list != [] ==> longer[1] == list[0]);
  }

  /** Joining a member's two neighbours and clearing its own links. */
  ghost function Unlinked(words: Words, block: int, prev: int, next: int): Words {
    var w := if prev != 0 then words[NextLink(prev) := next] else words;
    var v := if next != 0 then w[PrevLink(next) := prev] else w;
    v[NextLink(block) := 0][PrevLink(block) := 0]
  }

  lemma RemoveLinks(words: Words, head: int, list: seq<int>, k: int)
    requires Linked(words, head, list) && 0 <= k < |list|
    ensures var prev, next := LinkTo(list, k - 1), LinkTo(list, k + 1);
            var after := Unlinked(words, list[k], prev, next);
            && Linked(after, if prev == 0 then next else head, list[..k] + list[k + 1..])
            && OnlyLinksChanged(words, after, list)
  {
    var prev, next := LinkTo(list, k - 1), LinkTo(list, k + 1);
    var shorter := list[..k] + list[k + 1..];
    var after := Unlinked(words, list[k], prev, next);
    RemovedFrame(words, head, list, k);
    assert k > 0 ==> LinksOf(words, list, k - 1);
    forall i | 0 <= i < |shorter| ensures LinksOf(after, shorter, i) {
      var j := if i < k then i else i + 1;
      RemovedMember(words, head, list, k, j);
      assert shorter[i] == list[j];
    }
    forall i, j | 0 <= i < j < |shorter| ensures Apart(shorter[i], shorter[j]) {
      assert Apart(list[if i < k then i else i + 1], list[if j < k then j else j + 1]);
    }
  }

  lemma RemovedMember(words: Words, head: int, list: seq<int>, k: int, j: int)
    requires Linked(words, head, list) && 0 <= k < |list| && 0 <= j < |list| && j != k
    ensures var after := Unlinked(words, list[k], LinkTo(list, k - 1), LinkTo(list, k + 1));
            && 0 < list[j] && NextLink(list[j]) in after && PrevLink(list[j]) in after
            && after[NextLink(list[j])] == LinkTo(list, if j + 1 == k then j + 2 else j + 1)
            && after[PrevLink(list[j])] == LinkTo(list, if j - 1 == k then j - 2 else j - 1)
  {
    assert LinksOf(words, list, j) && LinksOf(words, list, k);
    assert k > 0 ==> LinksOf(words, list, k - 1);
    assert k + 1 < |list| ==> LinksOf(words, list, k + 1);
    assert if j < k then Apart(list[j], list[k]) else Apart(list[k], list[j]);
    if 0 < k && j != k - 1 {
      assert if j < k then Apart(list[j], list[k - 1]) else Apart(list[k - 1], list[j]);
    }
    if k + 1 < |list| && j != k + 1 {
      assert if j < k then Apart(list[j], list[k + 1]) else Apart(list[k + 1], list[j]);
    }
  }

  lemma RemovedFrame(words: Words, head: int, list: seq<int>, k: int)
    requires Linked(words, head, list) && 0 <= k < |list|
    ensures OnlyLinksChanged(words, Unlinked(words, list[k], LinkTo(list, k - 1), LinkTo(list, k + 1)), list)
  {
    assert LinksOf(words, list, k);
    assert k > 0 ==> LinksOf(words, list, k - 1) && list[k - 1] in list;
    assert k + 1 < |list| ==> LinksOf(words, list, k + 1) && list[k + 1] in list;
  }

  lemma LinkedHasNoDuplicates(words: Words, head: int, list: seq<int>)
    requires Linked(words, head, list)
    ensures NoDuplicates(list)
  {
    forall i, j | 0 <= i < j < |list| ensures list[i] != list[j] {
      assert Apart(list[i], list[j]);
    }
  }

  class FreeList {
    const mem: Memory
    var head: int
    ghost var list: seq<int>

    ghost predicate Valid()
      reads this, mem
    {
      Linked(mem.words, head, list)
    }

    constructor (mem: Memory)
      ensures this.mem == mem && list == [] && Valid()
    {
      this.mem := mem;
      head := 0;
      list := [];
    }

    /** Pushes `block` on the front. */
    method Insert(block: int)
      requires Valid()
      requires 0 < block && forall i | 0 <= i < |list| :: Apart(block, list[i])
      requires block in mem.words && IsFree(mem.words[block])
      requires NextLink(block) in mem.words && PrevLink(block) in mem.words
      modifies this, mem`words
      ensures Valid()
      ensures list == [block] + old(list)
      ensures block + 16 in mem.words && block + 24 in mem.words && mem.words[block + 16] == old(head) && mem.words[block + 24] == 0
      ensures OnlyLinksChanged(old(mem.words), mem.words, list)
    {
      InsertLinks(mem.words, head, list, block);
      mem.Store(PrevLink(block), 0);
      mem.Store(NextLink(block), head);
      if head != 0 {
        mem.Store(PrevLink(head), block);
      }
      head := block;
      list := [block] + list;
    }

    /** Unlinks `block`, wherever it stands, touching only its own links and its
        neighbours'. */
    method Remove(block: int)
      requires Valid()
      requires block in list
      requires block in mem.words && IsFree(mem.words[block])
      modifies this, mem`words
      ensures Valid()
      ensures list == Without(old(list), block)
      ensures block + 16 in mem.words && block + 24 in mem.words && mem.words[block + 16] == mem.words[block + 24] == 0
      ensures OnlyLinksChanged(old(mem.words), mem.words, old(list))
    {
      ghost var k :| 0 <= k < |list| && list[k] == block;
      RemoveLinks(mem.words, head, list, k);
      assert LinksOf(mem.words, list, k);
      var next := mem.words[NextLink(block)];
      var prev := mem.words[PrevLink(block)];
      assert k > 0 ==> prev == list[k - 1] && LinksOf(mem.words, list, k - 1);
      assert k + 1 < |list| ==> next == list[k + 1] && LinksOf(mem.words, list, k + 1);
      if prev != 0 {
        mem.Store(NextLink(prev), next);
      } else {
        head := next;
      }
      if next != 0 {
        mem.Store(PrevLink(next), prev);
      }
      mem.Store(NextLink(block), 0);
      mem.Store(PrevLink(block), 0);
      LinkedHasNoDuplicates(old(mem.words), old(head), list);
      WithoutAt(list, k);
      list := list[..k] + list[k + 1..];
    }

    /** First fit: the earliest member of at least `size` bytes, or null when every member
        is smaller. */
    method FindFirstFit(size: int) returns (block: int)
      requires Valid()
      requires forall i | 0 <= i < |list| :: list[i] in mem.words
      ensures block == 0 ==> forall i | 0 <= i < |list| :: GetSize(mem.words[list[i]]) < size
      ensures block != 0 ==> exists k | 0 <= k < |list| ::
                && list[k] == block && GetSize(mem.words[block]) >= size
                && forall i | 0 <= i < k :: GetSize(mem.words[list[i]]) < size
    {
      block := head;
      ghost var k := 0;
      while block != 0
        invariant 0 <= k <= |list| && block == LinkTo(list, k)
        invariant k < |list| ==> LinksOf(mem.words, list, k)
        invariant forall i | 0 <= i < k :: GetSize(mem.words[list[i]]) < size
        decreases |list| - k
      {
        if GetSize(mem.words[block]) >= size {
          return;
        }
        block := mem.words[NextLink(block)];
        k := k + 1;
      }
    }

    /** The number of members. */
    method Size() returns (count: nat)
      requires Valid()
      ensures count == |list|
    {
      count := 0;
      var block := head;
      while block != 0
        invariant 0 <= count <= |list| && block == LinkTo(list, count)
        invariant count < |list| ==> LinksOf(mem.words, list, count)
        decreases |list| - count
      {
        count := count + 1;
        block := mem.words[NextLink(block)];
      }
    }
  }
}
