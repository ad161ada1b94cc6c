/** MemBlockPool: memory blocks and the free lists that link them. */
module MemBlockPool {
  import opened MailboxSpec

  /** A block as malloc hands it out: the list link, then the size field and the message. */
  class MemBlock {
    const capacity: nat
    var next: MemBlock?
    var size: nat
    var dest: nat
    var letter: Letter

    constructor (capacity: nat)
      ensures this.capacity == capacity
    {
      this.capacity := capacity;
      next := null;
    }
  }

  class MemBlockPool {
    const size: nat
    var list: MemBlock?
    ghost var Blocks: seq<MemBlock>

    /** The links run through Blocks and end there. */
    ghost predicate Valid()
      reads this, Blocks`next
    {
      && list == At(0)
      && (forall i :: 0 <= i < |Blocks| ==> Blocks[i].next == At(i + 1))
      && (forall i, j :: 0 <= i < j < |Blocks| ==> Blocks[i] != Blocks[j])
    }

    ghost function At(i: nat): MemBlock?
      reads this
    {
      if i < |Blocks| then Blocks[i] else null
    }

    constructor (size: nat)
      ensures Valid() && this.size == size && Blocks == []
    {
      this.size := size;
      list := null;
      Blocks := [];
    }

    /** Unlinks the first block. */
    method PopFront() returns (block: MemBlock)
      requires Valid() && list != null
      modifies this
      ensures Valid() && old(Blocks) == [block] + Blocks
    {
      block := list;
      list := list.next;
      Blocks := Blocks[1..];
    }

    /** The destructor: every free block goes back to the system, once each and in list order. */
    method Destroy() returns (freed: seq<MemBlock>)
      requires Valid()
      modifies this
      ensures Valid() && list == null && Blocks == [] && freed == old(Blocks)
    {
      freed := [];
      while list != null
        invariant Valid() && freed + Blocks == old(Blocks)
        decreases |Blocks|
      {
        var block := PopFront();
        assert freed + [block] + Blocks == freed + ([block] + Blocks);
        freed := freed + [block];
      }
    }

    /** Takes the first free block, or a new one; `memory` says whether malloc succeeds. */
    method Alloc(memory: bool) returns (ret: MemBlock?)
      requires Valid()
      modifies this
      ensures Valid()
      ensures old(Blocks) != [] ==> ret == old(Blocks[0]) && Blocks == old(Blocks[1..])
      ensures old(Blocks) == [] ==> Blocks == [] && (ret != null <==> memory)
      ensures old(Blocks) == [] && ret != null ==> fresh(ret) && ret.capacity == size
    {
      ret := null;
      if list != null {
        ret := PopFront();
      }
      if ret == null {
        if memory { ret := new MemBlock(size); }
      }
    }

    method Free(block: MemBlock?)
      requires Valid() && block !in Blocks
      modifies this, (if block == null then {} else {block})`next
      ensures Valid()
      ensures Blocks == if block == null then old(Blocks) else [block] + old(Blocks)
    {
      if block == null { return; }
      block.next := list;
      list := block;
      Blocks := [block] + Blocks;
    }
  }
}
